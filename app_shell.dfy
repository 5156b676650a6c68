/** The application shell: the sidebar's navigation table with its
    active-item test, and the page-title lookup with its fallback. */
module AppShell {
  import opened Strings

  /** A sidebar entry (its label is `caption`, `label` being a Dafny keyword);
      `exact` entries are active only on their own path. */
  datatype NavItem = NavItem(href: string, caption: string, exact: bool)

  const NavItems: seq<NavItem> := [
    NavItem("/", "Data Dictionary", true),
    NavItem("/field-name-suggestion", "Name Suggestion", false),
    NavItem("/description-generation", "Description Generation", false),
    NavItem("/field-validation", "Field Validation", false),
    NavItem("/masking-recommendations", "Masking Rules", false),
    NavItem("/import-export", "Import / Export", false)
  ]

  const PageTitles: map<string, string> := map[
    "/" := "Data Dictionary",
    "/field-name-suggestion" := "AI Field Name Suggestion",
    "/description-generation" := "AI Description Generation",
    "/field-validation" := "Field Validation Engine",
    "/masking-recommendations" := "Smart Masking Recommendations",
    "/import-export" := "Import / Export Data",
    "/settings" := "Application Settings"
  ]

  const DefaultTitle: string := "LexiField"

  predicate IsActive(item: NavItem, pathname: string): (active: bool)
    ensures active ==> StartsWith(pathname, item.href)
    ensures pathname == item.href ==> active
  {
    if item.exact then pathname == item.href else StartsWith(pathname, item.href)
  }

  /** The header title: the mapped title of a known path, "LexiField" for any
      other path (a mapped but empty title would fall back as well). */
  function CurrentPageTitle(pathname: string): (title: string)
    ensures pathname in PageTitles ==> title == PageTitles[pathname]
    ensures pathname !in PageTitles ==> title == DefaultTitle
    ensures title != ""
  {
    if pathname in PageTitles && PageTitles[pathname] != "" then PageTitles[pathname] else DefaultTitle
  }

  /** The root item is active on "/" and nowhere else. */
  lemma RootActiveOnlyAtRoot(pathname: string)
    ensures IsActive(NavItems[0], pathname) <==> pathname == "/"
  {
  }

  /** Any other item is active exactly on the paths that start with its href. */
  lemma OtherItemActiveByPrefix(i: nat, pathname: string)
    requires 1 <= i < |NavItems|
    ensures IsActive(NavItems[i], pathname) <==> NavItems[i].href <= pathname
  {
  }

  /** Two prefixes of one sequence are prefixes of each other. */
  lemma PrefixesComparable(a: string, b: string, p: string)
    requires a <= p && b <= p && |a| <= |b|
    ensures a <= b
  {
    assert forall k :: 0 <= k < |a| ==> a[k] == p[k] == b[k];
  }

  /** No href of a non-root item is a prefix of another one. */
  lemma HrefsPrefixFree(i: nat, j: nat)
    requires 1 <= i < |NavItems| && 1 <= j < |NavItems| && i != j
    ensures !(NavItems[i].href <= NavItems[j].href)
  {
    var a, b := NavItems[i].href, NavItems[j].href;
    if |a| <= |b| {
      // the hrefs differ at their second character or, for the two that
      // both begin "/field-", at their eighth
      assert a[1] != b[1] || a[7] != b[7];
    }
  }

  /** Whatever the path, at most one item of the sidebar is active. */
  lemma AtMostOneActive(pathname: string, i: nat, j: nat)
    requires i < |NavItems| && j < |NavItems|
    requires IsActive(NavItems[i], pathname) && IsActive(NavItems[j], pathname)
    ensures i == j
  {
    // with the root item active the path is "/", which no other href fits
    if i != j && i != 0 && j != 0 {
      var a, b := NavItems[i].href, NavItems[j].href;
      if |a| <= |b| {
        PrefixesComparable(a, b, pathname);
        HrefsPrefixFree(i, j);
      } else {
        PrefixesComparable(b, a, pathname);
        HrefsPrefixFree(j, i);
      }
    }
  }

  /** The settings page has a title but no sidebar item of its own. */
  lemma SettingsActivatesNothing()
    ensures forall i :: 0 <= i < |NavItems| ==> !IsActive(NavItems[i], "/settings")
    ensures CurrentPageTitle("/settings") == "Application Settings"
  {
    forall i | 1 <= i < |NavItems| ensures !IsActive(NavItems[i], "/settings") {
      var h := NavItems[i].href;
      assert h[1] != "/settings"[1];
    }
  }
}
