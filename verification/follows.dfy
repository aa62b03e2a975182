/** The follow lists (views/FollowsView.tsx): two tabs, following and
    followers, each filled with twelve mock users whose relationship flags
    depend on the tab; a button per user that toggles whether I follow them,
    labelled by the relationship, and a badge for mutual follows. */
module Follows {
  import opened Types
  import opened Text

  datatype Tab = Following | Followers

  /** The tab the screen opens on: followers exactly when the route parameter
      says so, following for any other or a missing parameter. */
  function InitialTab(param: Option<string>): (t: Tab)
    ensures t == Followers <==> param == Some("followers")
  {
    if param == Some("followers") then Followers else Following
  }

  /** A user and the two relationship flags: I follow them, they follow me. */
  datatype User = User(id: string, name: string, avatar: string, bio: string, isFollowing: bool, isFollower: bool)

  const LIST_SIZE: nat := 12

  function UserId(i: nat): string {
    "u_user_" + NatToString(i + 100)
  }

  /** The mock user at position `i` of the list for `tab`. */
  function MockUser(tab: Tab, i: nat): User {
    var n := NatToString(i + 100);
    User(UserId(i),
         if i % 2 == 0 then "漫步者_" + n else "探路人_" + n,
         "https://picsum.photos/seed/u" + NatToString(i + 50) + "/150/150",
         if i % 3 == 0 then "热爱山川湖海，记录每一段有意义的旅程。" else "探索城市角落，分享生活点滴。",
         if tab == Following then true else i % 3 == 0,
         if tab == Followers then true else i % 4 == 0)
  }

  /** The list the tab effect installs: twelve users, u_user_100 to
      u_user_111 in order. On the following tab I follow everyone and every
      fourth user follows me back; on the followers tab everyone follows me
      and I follow every third. */
  function InitUsers(tab: Tab): (us: seq<User>)
    ensures |us| == LIST_SIZE
    ensures forall i :: 0 <= i < |us| ==> us[i] == MockUser(tab, i)
    ensures tab == Following ==> forall i :: 0 <= i < |us| ==> us[i].isFollowing && (us[i].isFollower <==> i % 4 == 0)
    ensures tab == Followers ==> forall i :: 0 <= i < |us| ==> us[i].isFollower && (us[i].isFollowing <==> i % 3 == 0)
  {
    seq(LIST_SIZE, i requires 0 <= i < LIST_SIZE => MockUser(tab, i))
  }

  lemma UserIdInjective(i: nat, j: nat)
    ensures UserId(i) == UserId(j) <==> i == j
  {
    NatToStringInjective(i + 100, j + 100);
    if UserId(i) == UserId(j) {
      assert UserId(i)[7..] == NatToString(i + 100);
      assert UserId(j)[7..] == NatToString(j + 100);
    }
  }

  /** Ids are distinct, so a toggle addressed by id reaches one user. */
  lemma InitIdsUnique(tab: Tab)
    ensures forall i, j :: 0 <= i < j < |InitUsers(tab)| ==> InitUsers(tab)[i].id != InitUsers(tab)[j].id
  {
    var us := InitUsers(tab);
    forall i, j | 0 <= i < j < |us| ensures us[i].id != us[j].id {
      UserIdInjective(i, j);
      assert us[i] == MockUser(tab, i) && us[j] == MockUser(tab, j);
    }
  }

  /** The screen: the active tab, the list, and whether it is still loading. */
  datatype Screen = Screen(tab: Tab, users: seq<User>, loading: bool)

  /** The first render shows the loading skeleton; the effect then fills the list. */
  function Opened(param: Option<string>): Screen {
    var t := InitialTab(param);
    Screen(t, InitUsers(t), false)
  }

  /** Tapping a tab: a different tab reinstalls that tab's list, discarding
      every toggle made so far; the current tab changes nothing. */
  function ChooseTab(s: Screen, t: Tab): (r: Screen)
    ensures t == s.tab ==> r == s
    ensures t != s.tab ==> r.tab == t && r.users == InitUsers(t) && !r.loading
  {
    if t == s.tab then s else Screen(t, InitUsers(t), false)
  }

  /** `toggleFollow(id)`: the users with that id flip whether I follow them;
      every other user, every other field, and the length and order of the
      list stay as they were. */
  function ToggleFollow(us: seq<User>, id: string): (r: seq<User>)
    ensures |r| == |us|
    ensures forall i :: 0 <= i < |us| ==>
      r[i].(isFollowing := us[i].isFollowing) == us[i] &&
      (r[i].isFollowing <==> (us[i].id == id) != us[i].isFollowing)
  {
    seq(|us|, i requires 0 <= i < |us| => if us[i].id == id then us[i].(isFollowing := !us[i].isFollowing) else us[i])
  }

  /** Toggling the same id twice restores the list. */
  lemma ToggleTwice(us: seq<User>, id: string)
    ensures ToggleFollow(ToggleFollow(us, id), id) == us
  {
    var r := ToggleFollow(ToggleFollow(us, id), id);
    forall i | 0 <= i < |us| ensures r[i] == us[i] {
      assert r[i].(isFollowing := us[i].isFollowing) == us[i];
    }
  }

  /** Toggles of two ids can be applied in either order. */
  lemma ToggleCommutes(us: seq<User>, a: string, b: string)
    ensures ToggleFollow(ToggleFollow(us, a), b) == ToggleFollow(ToggleFollow(us, b), a)
  {
    var x := ToggleFollow(ToggleFollow(us, a), b);
    var y := ToggleFollow(ToggleFollow(us, b), a);
    forall i | 0 <= i < |us| ensures x[i] == y[i] {
      assert x[i].(isFollowing := us[i].isFollowing) == us[i];
      assert y[i].(isFollowing := us[i].isFollowing) == us[i];
    }
  }

  /** The follow button's label. */
  function ButtonLabel(tab: Tab, u: User): string {
    if u.isFollowing then "已关注"
    else if tab == Followers && u.isFollower then "回关"
    else "关注"
  }

  /** The button reads 已关注 exactly while I follow the user; otherwise it
      offers to follow back (回关) on the followers tab when the user follows me,
      and to follow (关注) in every other case. */
  lemma ButtonLabelCases(tab: Tab, u: User)
    ensures ButtonLabel(tab, u) == "已关注" <==> u.isFollowing
    ensures ButtonLabel(tab, u) == "回关" <==> !u.isFollowing && tab == Followers && u.isFollower
    ensures ButtonLabel(tab, u) == "关注" <==> !u.isFollowing && !(tab == Followers && u.isFollower)
  {
  }

  /** Pressing a user's button moves the label between 已关注 and the label the
      user had before being followed. */
  lemma TogglePressedLabel(tab: Tab, us: seq<User>, i: int)
    requires 0 <= i < |us|
    ensures var r := ToggleFollow(us, us[i].id);
      (us[i].isFollowing ==> ButtonLabel(tab, r[i]) == (if tab == Followers && us[i].isFollower then "回关" else "关注")) &&
      (!us[i].isFollowing ==> ButtonLabel(tab, r[i]) == "已关注")
  {
    var r := ToggleFollow(us, us[i].id);
    assert r[i].(isFollowing := us[i].isFollowing) == us[i];
  }

  /** The mutual-follow badge. */
  predicate MutualBadge(tab: Tab, u: User) {
    u.isFollower && tab == Following
  }

  /** On the freshly filled following list the badge marks every fourth user,
      and the followers list never shows it. */
  lemma InitialBadges(tab: Tab)
    ensures forall i :: 0 <= i < LIST_SIZE ==> (MutualBadge(tab, InitUsers(tab)[i]) <==> tab == Following && i % 4 == 0)
  {
  }
}
