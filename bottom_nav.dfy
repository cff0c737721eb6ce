/** The bottom navigation bar: which item is highlighted for the current
    route, the app's three items, and when the bar is shown at all. */
module Navigation {
  import opened Common

  /** A bar item (its icon left out). */
  datatype NavItem = NavItem(route: string, title: string)

  /** `echoNavItems`. */
  const EchoNavItems: seq<NavItem> := [NavItem("home", "Home"), NavItem("stats", "Stats"), NavItem("settings", "Settings")]

  /** Kotlin's `startsWith`. */
  predicate StartsWith(s: string, prefix: string) {
    |prefix| <= |s| && s[..|prefix|] == prefix
  }

  /** The highlight rule: the item's own route, and for the settings item
      also every route beginning with "settings" and the "habits" and
      "theme" sub-pages. */
  predicate IsSelected(route: string, currentRoute: Option<string>) {
    currentRoute == Some(route)
    || (route == "settings" && currentRoute.Some? && StartsWith(currentRoute.value, "settings"))
    || (route == "settings" && currentRoute == Some("habits"))
    || (route == "settings" && currentRoute == Some("theme"))
  }

  /** Without a current route nothing is highlighted. */
  lemma NoRouteSelectsNone(route: string)
    ensures !IsSelected(route, None)
  {
  }

  /** Over the app's items, at most one is highlighted for any route; each
      item's own route highlights exactly that item, and the settings
      sub-pages highlight the settings item. */
  lemma AtMostOneSelected(currentRoute: Option<string>, i: nat, j: nat)
    requires i < |EchoNavItems| && j < |EchoNavItems|
    requires IsSelected(EchoNavItems[i].route, currentRoute) && IsSelected(EchoNavItems[j].route, currentRoute)
    ensures i == j
  {
    var c := currentRoute.value;
    if c == "home" || c == "stats" {
      assert !StartsWith(c, "settings");
    }
  }

  /** The settings item stays highlighted on its sub-pages. */
  lemma SettingsSubpages(currentRoute: string)
    requires currentRoute == "habits" || currentRoute == "theme" || StartsWith(currentRoute, "settings")
    ensures IsSelected(EchoNavItems[2].route, Some(currentRoute))
    ensures !IsSelected(EchoNavItems[0].route, Some(currentRoute)) && !IsSelected(EchoNavItems[1].route, Some(currentRoute))
  {
    if StartsWith(currentRoute, "settings") {
      assert currentRoute[0] == 's' && currentRoute[1] == 'e';
    }
  }

  /** A timer route ("timer/…") highlights no item. */
  lemma TimerRoutesSelectNone(currentRoute: string, i: nat)
    requires StartsWith(currentRoute, "timer") && i < |EchoNavItems|
    ensures !IsSelected(EchoNavItems[i].route, Some(currentRoute))
  {
    assert currentRoute[..5] == "timer";
    assert currentRoute[0] == 't' && currentRoute[1] == 'i';
    assert !StartsWith(currentRoute, "settings") by {
      assert "settings"[0] == 's';
    }
  }

  /** The main activity hides the bar on timer routes
      (`currentRoute?.startsWith("timer") == true`). */
  function BarVisible(currentRoute: Option<string>): (r: bool)
    ensures currentRoute.None? ==> r
    ensures currentRoute.Some? ==> (r <==> !StartsWith(currentRoute.value, "timer"))
  {
    !(currentRoute.Some? && StartsWith(currentRoute.value, "timer"))
  }
}
