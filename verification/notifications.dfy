/** The notification centre (views/NotificationsView.tsx): two tabs that
    split the messages into system announcements and interactions, and a
    button that marks every message read. */
module Notifications {
  import opened Types
  import opened Seqs

  datatype NoticeKind = LikeNotice | CommentNotice | FollowNotice | SystemNotice

  /** The user a notice comes from. */
  datatype Sender = Sender(id: string, name: string, avatar: string)

  /** One notification (`Message`). */
  datatype Notice = Notice(
    id: string,
    kind: NoticeKind,
    user: Option<Sender>,
    content: string,
    target: Option<string>,
    time: string,
    isUnread: bool)

  datatype Tab = Interact | System

  const INITIAL_NOTICES: seq<Notice> := [
    Notice("1", LikeNotice, Some(Sender("u_101", "夏日清风", "https://picsum.photos/seed/u1/100/100")),
           "赞了你的路线", Some("城市森林漫步"), "5分钟前", true),
    Notice("2", CommentNotice, Some(Sender("u_102", "徒步小分队", "https://picsum.photos/seed/u2/100/100")),
           "回复了你：茶室那个抹茶布丁真的必点！", Some("京都深处秘密茶室"), "1小时前", true),
    Notice("3", FollowNotice, Some(Sender("u_103", "旅行达人Mike", "https://picsum.photos/seed/u3/100/100")),
           "开始关注你了", None, "3小时前", false),
    Notice("4", SystemNotice, None, "秋日漫步挑战赛结果已公布，点击查看你的排名！", None, "昨天", false)
  ]

  /** The screen's state; it opens on the interactions tab. */
  datatype Screen = Screen(tab: Tab, notices: seq<Notice>)

  const INITIAL_SCREEN: Screen := Screen(Interact, INITIAL_NOTICES)

  /** The system tab shows system notices, the interactions tab all others. */
  predicate ShownOn(tab: Tab, m: Notice) {
    if tab == System then m.kind == SystemNotice else m.kind != SystemNotice
  }

  function OnTab(tab: Tab): Notice -> bool {
    (m: Notice) => ShownOn(tab, m)
  }

  /** `filteredMessages`: the notices of the active tab, each as often as it
      occurs and in their original order. */
  function Visible(tab: Tab, ms: seq<Notice>): (r: seq<Notice>)
    ensures forall x :: multiset(r)[x] == if ShownOn(tab, x) then multiset(ms)[x] else 0
    ensures IsSubsequence(r, ms)
  {
    FilterCounts(OnTab(tab), ms);
    FilterIsSubsequence(OnTab(tab), ms);
    Filter(OnTab(tab), ms)
  }

  /** The two tabs never show the same notice and between them show every
      notice, each exactly as often as it occurs. */
  lemma TabsPartition(ms: seq<Notice>)
    ensures multiset(Visible(System, ms)) + multiset(Visible(Interact, ms)) == multiset(ms)
    ensures forall x :: !(x in Visible(System, ms) && x in Visible(Interact, ms))
  {
    FilterPartition(OnTab(System), OnTab(Interact), ms);
    forall x ensures !(x in Visible(System, ms) && x in Visible(Interact, ms)) {
      FilterMembership(OnTab(System), ms, x);
      FilterMembership(OnTab(Interact), ms, x);
    }
  }

  /** The empty-state placeholder is shown exactly when the tab has nothing. */
  predicate ShowsEmptyState(s: Screen) {
    |Visible(s.tab, s.notices)| == 0
  }

  lemma EmptyStateIff(s: Screen)
    ensures ShowsEmptyState(s) <==> forall i :: 0 <= i < |s.notices| ==> !ShownOn(s.tab, s.notices[i])
  {
    FilterEmpty(OnTab(s.tab), s.notices);
  }

  /** `clearAllUnread`: every notice becomes read; nothing else about any
      notice, nor the number or order of notices, changes. */
  function ClearAllUnread(ms: seq<Notice>): (r: seq<Notice>)
    ensures |r| == |ms|
    ensures forall i :: 0 <= i < |r| ==> !r[i].isUnread && r[i].(isUnread := ms[i].isUnread) == ms[i]
  {
    if |ms| == 0 then [] else [ms[0].(isUnread := false)] + ClearAllUnread(ms[1..])
  }

  predicate AllRead(ms: seq<Notice>) {
    forall i :: 0 <= i < |ms| ==> !ms[i].isUnread
  }

  /** Clearing twice is clearing once, and a list with nothing unread is left as it is. */
  lemma ClearIdempotent(ms: seq<Notice>)
    ensures ClearAllUnread(ClearAllUnread(ms)) == ClearAllUnread(ms)
    ensures AllRead(ms) <==> ClearAllUnread(ms) == ms
  {
    var c := ClearAllUnread(ms);
    if AllRead(ms) {
      forall i | 0 <= i < |ms| ensures c[i] == ms[i] {
        assert c[i].(isUnread := ms[i].isUnread) == ms[i];
      }
    }
  }

  lemma {:induction false} FilterClearCommutes(tab: Tab, ms: seq<Notice>)
    ensures Filter(OnTab(tab), ClearAllUnread(ms)) == ClearAllUnread(Filter(OnTab(tab), ms))
  {
    var p := OnTab(tab);
    if |ms| > 0 {
      FilterClearCommutes(tab, ms[1..]);
      var c := ClearAllUnread(ms);
      assert c[1..] == ClearAllUnread(ms[1..]);
      var rest := Filter(p, ms[1..]);
      if p(ms[0]) {
        assert Filter(p, ms) == [ms[0]] + rest;
        assert ([ms[0]] + rest)[1..] == rest;
      }
    }
  }

  /** Clearing never moves a notice between tabs: the tab shows the cleared
      versions of what it showed before. */
  lemma ClearKeepsTabs(tab: Tab, ms: seq<Notice>)
    ensures Visible(tab, ClearAllUnread(ms)) == ClearAllUnread(Visible(tab, ms))
  {
    FilterClearCommutes(tab, ms);
  }

  /** The title line: the sender's name, or the system label when there is
      no sender or the name is empty. */
  function DisplayName(m: Notice): (name: string)
    ensures m.user.Some? && m.user.value.name != "" ==> name == m.user.value.name
    ensures m.user.None? || m.user.value.name == "" ==> name == "系统通知"
  {
    match m.user
    case Some(u) => if u.name != "" then u.name else "系统通知"
    case None => "系统通知"
  }

  /** A list of three interactions followed by one system notice. */
  lemma ThreeThenOne(s: seq<Notice>)
    requires |s| == 4 && s[3].kind == SystemNotice
    requires forall i :: 0 <= i < 3 ==> s[i].kind != SystemNotice
    ensures Visible(Interact, s) == s[..3]
    ensures Visible(System, s) == s[3..]
  {
    var p := OnTab(Interact);
    var q := OnTab(System);
    assert s[3..][1..] == [];
    assert Filter(p, s[3..]) == [] && Filter(q, s[3..]) == [s[3]];
    assert s[2..][1..] == s[3..];
    assert Filter(p, s[2..]) == [s[2]] && Filter(q, s[2..]) == [s[3]];
    assert s[1..][1..] == s[2..];
    assert Filter(p, s[1..]) == [s[1], s[2]] && Filter(q, s[1..]) == [s[3]];
    assert Filter(p, s) == [s[0], s[1], s[2]] && Filter(q, s) == [s[3]];
    assert s[3..] == [s[3]] && s[..3] == [s[0], s[1], s[2]];
  }

  /** On the initial list the interactions tab shows the first three notices
      and the system tab the fourth. */
  lemma InitialTabs()
    ensures Visible(Interact, INITIAL_NOTICES) == INITIAL_NOTICES[..3]
    ensures Visible(System, INITIAL_NOTICES) == INITIAL_NOTICES[3..]
  {
    ThreeThenOne(INITIAL_NOTICES);
  }
}
