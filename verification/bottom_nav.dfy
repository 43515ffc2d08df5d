/**
  The bottom tab bar: which of the four tabs is highlighted for the current
  path, and the cart tab's item-count badge.
 */
module BottomNav {
  import opened Types
  import opened Strings

  datatype Tab = Home | Explore | Cart | Profile

  /** The link each tab points to. */
  function Href(t: Tab): string {
    match t
      case Home => "/"
      case Explore => "/explore"
      case Cart => "/cart"
      case Profile => "/profile"
  }

  /** The root matches only itself; any other link matches every path that
      begins with it. */
  predicate IsActive(pathname: string, path: string) {
    if path == "/" then pathname == "/" else StartsWith(pathname, path)
  }

  /** Whether a tab is highlighted; the profile tab also covers the sign-in pages. */
  predicate TabActive(pathname: string, t: Tab) {
    match t
      case Home => IsActive(pathname, "/") && pathname == "/"
      case Explore => IsActive(pathname, "/explore")
      case Cart => IsActive(pathname, "/cart")
      case Profile => IsActive(pathname, "/profile") || IsActive(pathname, "/auth")
  }

  /** A path has at most one highlighted tab, and each tab is highlighted on
      its own link. */
  lemma AtMostOneTabActive(pathname: string, a: Tab, b: Tab)
    requires TabActive(pathname, a) && TabActive(pathname, b)
    ensures a == b
  {
    if a != b {
      PrefixesDisagree(pathname);
    }
  }

  lemma PrefixesDisagree(pathname: string)
    ensures !(StartsWith(pathname, "/explore") && StartsWith(pathname, "/cart"))
    ensures !(StartsWith(pathname, "/explore") && StartsWith(pathname, "/profile"))
    ensures !(StartsWith(pathname, "/explore") && StartsWith(pathname, "/auth"))
    ensures !(StartsWith(pathname, "/cart") && StartsWith(pathname, "/profile"))
    ensures !(StartsWith(pathname, "/cart") && StartsWith(pathname, "/auth"))
    ensures !(StartsWith(pathname, "/profile") && StartsWith(pathname, "/auth"))
    ensures (StartsWith(pathname, "/explore") || StartsWith(pathname, "/cart")
             || StartsWith(pathname, "/profile") || StartsWith(pathname, "/auth")) ==> pathname != "/"
  {
    if |pathname| >= 2 {
      assert StartsWith(pathname, "/explore") ==> pathname[1] == 'e';
      assert StartsWith(pathname, "/cart") ==> pathname[1] == 'c';
      assert StartsWith(pathname, "/profile") ==> pathname[1] == 'p';
      assert StartsWith(pathname, "/auth") ==> pathname[1] == 'a';
    }
  }

  /** Each tab is highlighted on its own link, and the matching is by prefix
      without a segment boundary. */
  lemma OwnLinkActive(t: Tab)
    ensures TabActive(Href(t), t)
    ensures TabActive("/auth/login", Profile) && TabActive("/explorer", Explore)
    ensures !TabActive("/explore", Home)
  {
    assert "/auth/login"[..5] == "/auth";
    assert "/explorer"[..8] == "/explore";
  }

  /** The cart tab's badge: nothing for an empty cart, the count up to 99,
      and "99+" beyond. */
  function CartBadge(count: int): (r: Option<string>)
    ensures r.None? <==> count <= 0
    ensures count > 99 ==> r == Some("99+")
    ensures 0 < count < 10 ==> |r.value| == 1
    ensures 0 < count <= 99 ==>
      && |r.value| <= 2
      && (forall i :: 0 <= i < |r.value| ==> '0' <= r.value[i] <= '9')
      && DecimalValue(r.value) == count
  {
    if count <= 0 then None
    else if count > 99 then Some("99+")
    else
      DecimalRoundTrip(count);
      Some(Decimal(count))
  }

  /** The badge never takes more than three characters. */
  lemma BadgeFits(count: int)
    ensures CartBadge(count).Some? ==> |CartBadge(count).value| <= 3
  {
  }
}
