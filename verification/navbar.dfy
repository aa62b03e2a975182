/** The bottom navigation bar (components/Navbar.tsx): four tabs, each
    highlighted when the current path belongs to it. */
module Navbar {
  import opened Types
  import opened Text

  datatype Tab = Tab(path: string, caption: string, icon: string)

  const TABS: seq<Tab> := [
    Tab("/", "探索", "explore"),
    Tab("/track", "轨迹", "route"),
    Tab("/community", "社区", "group"),
    Tab("/profile", "我的", "person")
  ]

  /** `isActive(path)`: the root tab only on the root path itself, every
      other tab on any path that starts with its own. */
  predicate IsActive(pathname: string, path: string) {
    if path == "/" && pathname != "/" then false else StartsWith(pathname, path)
  }

  /** The root tab is lit exactly on "/"; another tab exactly on the paths
      that begin with its path (so "/community" and "/community/1", but
      also "/trackers"). */
  lemma ActiveCases(pathname: string, i: int)
    requires 0 <= i < |TABS|
    ensures i == 0 ==> (IsActive(pathname, TABS[i].path) <==> pathname == "/")
    ensures i > 0 ==> (IsActive(pathname, TABS[i].path) <==> StartsWith(pathname, TABS[i].path))
  {
  }

  /** Two tabs whose paths start with '/' and differ in their second
      character are never both lit. */
  lemma DistinctAt1(pathname: string, p: string, q: string)
    requires |p| >= 2 && |q| >= 2 && p[1] != q[1]
    requires StartsWith(pathname, p)
    ensures !StartsWith(pathname, q)
  {
    assert pathname[1] == pathname[..|p|][1] == p[1];
    if |q| <= |pathname| {
      assert pathname[..|q|][1] == pathname[1];
    }
  }

  /** At most one tab is lit on any path. */
  lemma AtMostOneActive(pathname: string, i: int, j: int)
    requires 0 <= i < j < |TABS|
    ensures !(IsActive(pathname, TABS[i].path) && IsActive(pathname, TABS[j].path))
  {
    if i == 0 {
      if pathname == "/" {
        assert |TABS[j].path| > 1;
      }
    } else {
      assert TABS[i].path[1] != TABS[j].path[1];
      if IsActive(pathname, TABS[i].path) {
        DistinctAt1(pathname, TABS[i].path, TABS[j].path);
      }
    }
  }

  /** The tab the bar lights, if any. */
  function ActiveIndex(pathname: string): (r: Option<nat>)
    ensures r.Some? ==> r.value < |TABS| && IsActive(pathname, TABS[r.value].path)
    ensures r.None? ==> forall i :: 0 <= i < |TABS| ==> !IsActive(pathname, TABS[i].path)
  {
    if IsActive(pathname, TABS[0].path) then Some(0)
    else if IsActive(pathname, TABS[1].path) then Some(1)
    else if IsActive(pathname, TABS[2].path) then Some(2)
    else if IsActive(pathname, TABS[3].path) then Some(3)
    else None
  }

  /** The lit tab is the only lit one. */
  lemma ActiveIndexUnique(pathname: string, i: int)
    requires 0 <= i < |TABS| && IsActive(pathname, TABS[i].path)
    ensures ActiveIndex(pathname) == Some(i)
  {
    var r := ActiveIndex(pathname);
    if r.value < i {
      AtMostOneActive(pathname, r.value, i);
    } else if r.value > i {
      AtMostOneActive(pathname, i, r.value);
    }
  }

  /** Screens off the bar, such as a route's detail page, light no tab;
      the tabs' own paths light themselves. */
  lemma Examples()
    ensures ActiveIndex("/detail/1") == None
    ensures ActiveIndex("/") == Some(0) && ActiveIndex("/track") == Some(1)
    ensures ActiveIndex("/community") == Some(2) && ActiveIndex("/profile") == Some(3)
  {
    var d := "/detail/1";
    assert d[..2] == "/d";
    assert d[..6] != "/track" by { assert d[..6][1] != "/track"[1]; }
    assert d[..|"/profile"|][1] != "/profile"[1];
    assert "/community"[..6][1] != "/track"[1];
    assert "/profile"[..6][1] != "/track"[1];
    assert "/profile"[..|"/profile"|] == "/profile";
  }
}
