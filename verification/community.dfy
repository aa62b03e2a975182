/** The community screen's masonry feed (views/CommunityView.tsx): mock
    posts built from a template with overridable extras, three tabs whose
    selection resets the feed, a loader that appends two posts per request
    after a delay, and the aspect-ratio class each card is drawn with.

    The loader runs in two steps because the source awaits a timer between
    them: `BeginLoad` marks the feed as loading and records the post count it
    will number from; `Finish` appends the posts when the timer fires. Other
    events may come in between. */
module Community {
  import opened Types
  import opened Text
  import opened Decimal

  datatype Tab = Follow | Discover | Nearby

  function TabLabel(t: Tab): string {
    match t
    case Follow => "关注"
    case Discover => "发现"
    case Nearby => "附近"
  }

  /** The tab bar, in display order. */
  const TABS: seq<Tab> := [Follow, Discover, Nearby]

  /** The tab bar offers each tab exactly once and no two tabs share a label. */
  lemma TabBar()
    ensures forall t: Tab :: t in TABS
    ensures forall i, j :: 0 <= i < j < |TABS| ==> TABS[i] != TABS[j] && TabLabel(TABS[i]) != TabLabel(TABS[j])
  {
    forall t: Tab ensures t in TABS {
      match t
      case Follow => assert TABS[0] == t;
      case Discover => assert TABS[1] == t;
      case Nearby => assert TABS[2] == t;
    }
  }

  /** A like count as displayed: a preformatted text ("1.2k") or a number. */
  datatype Likes = LikesText(text: string) | LikesCount(count: nat)

  /** The optional `extra` properties the template accepts. */
  datatype Extra = Extra(
    distance: Option<string>,
    summary: Option<string>,
    likes: Option<Likes>,
    isVideo: Option<bool>,
    aspectRatio: Option<string>)

  /** A feed card: a route plus the presentation properties the extras add. */
  datatype Post = Post(route: TravelRoute, likes: Option<Likes>, isVideo: bool, aspectRatio: Option<string>)

  const DEFAULT_DISTANCE: string := "5.2km"
  const DEFAULT_SUMMARY: string := "这条路线充满了惊喜和发现..."

  /** A string-valued property that is present and not the empty string. */
  predicate Truthy(s: Option<string>) {
    s.Some? && s.value != ""
  }

  /** `createMockRoute`: fixed time, climb and rating, no moments, an avatar
      seeded by the author, and the extras copied over the defaults. The spread
      of `extra` comes last, so a distance it carries wins even when it is the
      empty string that the `||` fallback would have replaced. */
  function CreateMockRoute(id: string, title: string, author: string, cover: string, extra: Extra): (p: Post)
    ensures p.route.id == id && p.route.title == title && p.route.author == author && p.route.cover == cover
    ensures p.route.distance == extra.distance.GetOr(DEFAULT_DISTANCE)
    ensures p.route.aiSummary == Some(if Truthy(extra.summary) then extra.summary.value else DEFAULT_SUMMARY)
    ensures p.route.aiSummary.Some? && p.route.aiSummary.value != ""
    ensures p.route.time == "2h" && p.route.climb == "80m" && p.route.rating == 4.5 && p.route.moments == []
    ensures p.route.authorAvatar == "https://picsum.photos/seed/" + author + "/100/100"
    ensures p.likes == extra.likes && p.aspectRatio == extra.aspectRatio
    ensures p.isVideo <==> extra.isVideo == Some(true)
  {
    var fallbackDistance := if Truthy(extra.distance) then extra.distance.value else DEFAULT_DISTANCE;
    var distance := match extra.distance case Some(d) => d case None => fallbackDistance;
    var summary := if Truthy(extra.summary) then extra.summary.value else DEFAULT_SUMMARY;
    Post(
      TravelRoute(id, title, author, "https://picsum.photos/seed/" + author + "/100/100", distance,
                  "2h", "80m", 4.5, cover, [], Some(summary)),
      extra.likes, extra.isVideo.GetOr(false), extra.aspectRatio)
  }

  /** Without extras a mock route gets every default. */
  lemma MockRouteDefaults(id: string, title: string, author: string, cover: string)
    ensures var p := CreateMockRoute(id, title, author, cover, Extra(None, None, None, None, None));
      && p.route.distance == DEFAULT_DISTANCE && p.route.time == "2h" && p.route.climb == "80m"
      && p.route.rating == 4.5 && p.route.moments == [] && p.route.aiSummary == Some(DEFAULT_SUMMARY)
      && !p.isVideo && p.likes.None? && p.aspectRatio.None?
  {
  }

  const SEEDS: seq<Post> := [
    CreateMockRoute("d1", "静安寺周边的藏宝路线，这几个机位绝了！", "阿强在漫步", "https://picsum.photos/seed/p1/400/600",
                    Extra(None, None, Some(LikesText("1.2k")), Some(true), Some("aspect-[2/3]"))),
    CreateMockRoute("d2", "周末去哪儿？发现一个神仙徒步地", "小林", "https://picsum.photos/seed/p2/400/500",
                    Extra(None, None, Some(LikesText("856")), None, Some("aspect-[4/5]"))),
    CreateMockRoute("d3", "秋天的第一场Citywalk，从梧桐大道开始", "摄影师木木", "https://picsum.photos/seed/p3/400/400",
                    Extra(None, None, Some(LikesText("432")), None, Some("aspect-square"))),
    CreateMockRoute("d4", "新手徒步装备避雷指南！别再乱买啦", "徒步小白", "https://picsum.photos/seed/p4/400/700",
                    Extra(None, None, Some(LikesText("2.8k")), None, Some("aspect-[9/16]")))
  ]

  /** The aspect-ratio classes the posts are created with. */
  const ASPECT_CLASSES: set<string> := {"aspect-[2/3]", "aspect-[4/5]", "aspect-square", "aspect-[9/16]", "aspect-[3/4]"}

  /** The UTF-16 code unit `charCodeAt` returns for the last unit of `c`: the
      character itself inside the basic plane, its low surrogate beyond it. */
  function LastCodeUnit(c: char): int {
    if c as int < 0x10000 then c as int else 0xDC00 + (c as int - 0x10000) % 0x400
  }

  /** A low surrogate has the parity of the character it encodes. */
  lemma LastCodeUnitParity(c: char)
    ensures LastCodeUnit(c) % 2 == c as int % 2
  {
    if c as int >= 0x10000 {
      var v := c as int - 0x10000;
      assert v % 0x400 % 2 == v % 2;
    }
  }

  /** The card's aspect-ratio class: the post's own when it has a non-empty
      one; otherwise decided by the parity of the id's last character, where an
      empty id (whose `charCodeAt` is NaN, never even) gets 'aspect-[3/4]'. */
  function AspectRatioClass(p: Post): (cls: string)
    ensures Truthy(p.aspectRatio) ==> cls == p.aspectRatio.value
    ensures !Truthy(p.aspectRatio) ==>
      (cls == "aspect-[4/5]" <==> |p.route.id| > 0 && p.route.id[|p.route.id| - 1] as int % 2 == 0)
    ensures !Truthy(p.aspectRatio) ==> cls in {"aspect-[4/5]", "aspect-[3/4]"}
  {
    if Truthy(p.aspectRatio) then p.aspectRatio.value
    else if |p.route.id| == 0 then "aspect-[3/4]"
    else
      LastCodeUnitParity(p.route.id[|p.route.id| - 1]);
      if LastCodeUnit(p.route.id[|p.route.id| - 1]) % 2 == 0 then "aspect-[4/5]" else "aspect-[3/4]"
  }

  // ---------------------------------------------------------------------------
  // Feed state and events

  /** The screen's state. `pending` is the post count the load in flight
      captured when it began. */
  datatype Feed = Feed(tab: Tab, posts: seq<Post>, isLoading: bool, hasMore: bool, pending: Option<nat>)

  const SCROLL_THRESHOLD: real := 100.0
  const CEILING: nat := 20

  /** The tab-change effect: back to the four seeded posts, more available. */
  function Reset(f: Feed): Feed {
    f.(posts := SEEDS, hasMore := true)
  }

  /** The state after the first render and its effect. */
  function Initial(): Feed {
    Reset(Feed(Discover, [], false, true, None))
  }

  /** Choosing a tab runs the reset effect only when the tab changes; the
      loading flag and any load in flight are left alone. */
  function ChooseTab(f: Feed, t: Tab): (g: Feed)
    ensures t == f.tab ==> g == f
    ensures t != f.tab ==> g.tab == t && g.posts == SEEDS && g.hasMore
    ensures g.isLoading == f.isLoading && g.pending == f.pending
  {
    if t == f.tab then f else Reset(f.(tab := t))
  }

  /** The first half of `loadMoreData`: ignored while loading or once
      exhausted, otherwise it marks the feed as loading and captures the count. */
  function BeginLoad(f: Feed): (g: Feed)
    ensures f.isLoading || !f.hasMore ==> g == f
    ensures !f.isLoading && f.hasMore ==> g.isLoading && g.pending == Some(|f.posts|) && g.posts == f.posts && g.hasMore
  {
    if f.isLoading || !f.hasMore then f else f.(isLoading := true, pending := Some(|f.posts|))
  }

  /** The post id numbered `n`. */
  function PostId(n: nat): string {
    "d" + NatToString(n)
  }

  /** Distinct numbers give distinct post ids. */
  lemma PostIdInjective(m: nat, n: nat)
    ensures PostId(m) == PostId(n) <==> m == n
  {
    NatToStringInjective(m, n);
    if PostId(m) == PostId(n) {
      assert NatToString(m) == PostId(m)[1..];
      assert NatToString(n) == PostId(n)[1..];
    }
  }

  predicate ValidDraw(u: real) {
    0.0 <= u < 1.0
  }

  /** The two posts a load numbered from `nextId` creates; `u1` and `u2` are the
      `Math.random()` draws for their like counts. */
  function NewPosts(nextId: nat, u1: real, u2: real): (ps: seq<Post>)
    requires ValidDraw(u1) && ValidDraw(u2)
    ensures |ps| == 2 && ps[0].route.id == PostId(nextId) && ps[1].route.id == PostId(nextId + 1)
    ensures forall i :: 0 <= i < |ps| ==> ps[i].aspectRatio.Some? && ps[i].aspectRatio.value in ASPECT_CLASSES
    ensures ps[0].likes.Some? && ps[0].likes.value.LikesCount? && ps[0].likes.value.count < 1000
    ensures ps[1].likes.Some? && ps[1].likes.value.LikesCount? && ps[1].likes.value.count < 500
  {
    var n := NatToString(nextId);
    [ CreateMockRoute(PostId(nextId), "发现新的旅程 #" + n + "：探索未知角落", "探索者",
                      "https://picsum.photos/seed/p" + NatToString(nextId % 10 + 10) + "/400/" + NatToString(400 + (nextId % 3) * 100),
                      Extra(None, None, Some(LikesCount(FloorNat(u1 * 1000.0))), None,
                            Some(if nextId % 2 == 0 then "aspect-[3/4]" else "aspect-[4/5]"))),
      CreateMockRoute(PostId(nextId + 1), "隐藏在巷弄里的咖啡地图", "啡行员",
                      "https://picsum.photos/seed/p" + NatToString((nextId + 1) % 10 + 10) + "/400/500",
                      Extra(None, None, Some(LikesCount(FloorNat(u2 * 500.0))), None, Some("aspect-square"))) ]
  }

  /** The second half of `loadMoreData` AS WRITTEN: the posts are numbered
      from the count captured when the load began and appended to whatever the
      list holds now, and the ceiling test reads the captured count too. */
  function FinishAsWritten(f: Feed, u1: real, u2: real): (g: Feed)
    requires ValidDraw(u1) && ValidDraw(u2)
    ensures f.pending.None? ==> g == f
    ensures f.pending.Some? ==> g.posts == f.posts + NewPosts(f.pending.value + 1, u1, u2) && !g.isLoading && g.pending.None?
    ensures f.pending.Some? ==> (g.hasMore <==> f.hasMore && f.pending.value <= CEILING)
  {
    match f.pending
    case None => f
    case Some(captured) =>
      f.(posts := f.posts + NewPosts(captured + 1, u1, u2), isLoading := false, pending := None,
         hasMore := if captured > CEILING then false else f.hasMore)
  }

  /** The second half of `loadMoreData` as evidently intended: the posts are
      numbered from the list they are appended to (a functional update reading
      the current list), and the ceiling test reads the same count. */
  function Finish(f: Feed, u1: real, u2: real): (g: Feed)
    requires ValidDraw(u1) && ValidDraw(u2)
    ensures f.pending.None? ==> g == f
    ensures f.pending.Some? ==>
      && |g.posts| == |f.posts| + 2 && g.posts[..|f.posts|] == f.posts
      && g.posts[|f.posts|].route.id == PostId(|f.posts| + 1) && g.posts[|f.posts| + 1].route.id == PostId(|f.posts| + 2)
      && !g.isLoading && g.pending.None? && (g.hasMore <==> f.hasMore && |f.posts| <= CEILING)
  {
    match f.pending
    case None => f
    case Some(_) =>
      var n := |f.posts|;
      var ps := NewPosts(n + 1, u1, u2);
      var posts := f.posts + ps;
      assert posts[..n] == f.posts && posts[n] == ps[0] && posts[n + 1] == ps[1];
      f.(posts := posts, isLoading := false, pending := None, hasMore := if n > CEILING then false else f.hasMore)
  }

  /** One `loadMoreData` call with nothing else happening during its delay:
      ignored while loading or once exhausted; otherwise two posts numbered
      d(n+1) and d(n+2) after the n present are appended, the loading flag is
      clear again, and more stays available unless n exceeded 20. */
  function AtomicLoad(f: Feed, u1: real, u2: real): (g: Feed)
    requires ValidDraw(u1) && ValidDraw(u2)
    ensures f.isLoading || !f.hasMore ==> g == f
    ensures !f.isLoading && f.hasMore ==>
      && |g.posts| == |f.posts| + 2 && g.posts[..|f.posts|] == f.posts
      && g.posts[|f.posts|].route.id == PostId(|f.posts| + 1) && g.posts[|f.posts| + 1].route.id == PostId(|f.posts| + 2)
      && !g.isLoading && g.pending.None? && (g.hasMore <==> |f.posts| <= CEILING)
  {
    if f.isLoading || !f.hasMore then f
    else
      FinishAgreesWithoutSwitch(BeginLoad(f), u1, u2);
      FinishAsWritten(BeginLoad(f), u1, u2)
  }

  /** When nothing replaced the list while the load was in flight, the two
      versions of the second half agree. */
  lemma FinishAgreesWithoutSwitch(f: Feed, u1: real, u2: real)
    requires ValidDraw(u1) && ValidDraw(u2)
    requires f.pending.Some? ==> f.pending.value == |f.posts|
    ensures FinishAsWritten(f, u1, u2) == Finish(f, u1, u2)
  {
    if f.pending.Some? {
      var n := |f.posts|;
      var g := f.(posts := f.posts + NewPosts(n + 1, u1, u2), isLoading := false, pending := None,
                  hasMore := if n > CEILING then false else f.hasMore);
      assert FinishAsWritten(f, u1, u2) == g;
      assert Finish(f, u1, u2) == g;
    }
  }

  predicate NearEnd(g: Geometry) {
    g.Remaining() < SCROLL_THRESHOLD
  }

  /** The events the screen reacts to: a scroll (with the container, when it
      is mounted), a tab tap, and the load timer firing with its two draws. */
  datatype Event = Scroll(container: Option<Geometry>) | TapTab(tab: Tab) | Timer(u1: real, u2: real)

  predicate ValidEvent(e: Event) {
    e.Timer? ==> ValidDraw(e.u1) && ValidDraw(e.u2)
  }

  /** `handleScroll`: begins a load when the container is mounted and near its end. */
  function HandleScroll(f: Feed, container: Option<Geometry>): (g: Feed)
    ensures container.Some? && NearEnd(container.value) ==> g == BeginLoad(f)
    ensures container.None? || !NearEnd(container.value) ==> g == f
  {
    if container.Some? && NearEnd(container.value) then BeginLoad(f) else f
  }

  function StepAsWritten(f: Feed, e: Event): Feed
    requires ValidEvent(e)
  {
    match e
    case Scroll(c) => HandleScroll(f, c)
    case TapTab(t) => ChooseTab(f, t)
    case Timer(u1, u2) => FinishAsWritten(f, u1, u2)
  }

  function Step(f: Feed, e: Event): Feed
    requires ValidEvent(e)
  {
    match e
    case Scroll(c) => HandleScroll(f, c)
    case TapTab(t) => ChooseTab(f, t)
    case Timer(u1, u2) => Finish(f, u1, u2)
  }

  predicate ValidEvents(es: seq<Event>) {
    forall i :: 0 <= i < |es| ==> ValidEvent(es[i])
  }

  function RunAsWritten(f: Feed, es: seq<Event>): Feed
    requires ValidEvents(es)
    decreases |es|
  {
    if |es| == 0 then f else RunAsWritten(StepAsWritten(f, es[0]), es[1..])
  }

  function Run(f: Feed, es: seq<Event>): Feed
    requires ValidEvents(es)
    decreases |es|
  {
    if |es| == 0 then f else Run(Step(f, es[0]), es[1..])
  }

  // ---------------------------------------------------------------------------
  // What every reachable feed satisfies

  /** The post at index k has id d(k+1) and a declared aspect class; the list
      is even-sized between 4 and 24; a load in flight is exactly a set loading
      flag, and happens only while more is available; more is available only
      up to 22 posts. */
  ghost predicate Invariant(f: Feed) {
    && |f.posts| % 2 == 0 && 4 <= |f.posts| <= CEILING + 4
    && (forall k :: 0 <= k < |f.posts| ==> f.posts[k].route.id == PostId(k + 1))
    && (forall k :: 0 <= k < |f.posts| ==> f.posts[k].aspectRatio.Some? && f.posts[k].aspectRatio.value in ASPECT_CLASSES)
    && (f.isLoading <==> f.pending.Some?)
    && (f.isLoading ==> f.hasMore)
    && (f.hasMore ==> |f.posts| <= CEILING + 2)
  }

  lemma SeedsInvariant()
    ensures forall k :: 0 <= k < |SEEDS| ==> SEEDS[k].route.id == PostId(k + 1)
    ensures forall k :: 0 <= k < |SEEDS| ==> SEEDS[k].aspectRatio.Some? && SEEDS[k].aspectRatio.value in ASPECT_CLASSES
  {
    assert PostId(1) == "d1" && PostId(2) == "d2" && PostId(3) == "d3" && PostId(4) == "d4";
  }

  lemma InitialInvariant()
    ensures Invariant(Initial())
  {
    SeedsInvariant();
  }

  lemma EvenPlusTwo(n: nat)
    requires n % 2 == 0
    ensures (n + 2) % 2 == 0
  {
  }

  /** The appended posts continue the numbering. */
  lemma FinishNumbers(f: Feed, u1: real, u2: real)
    requires ValidDraw(u1) && ValidDraw(u2) && f.pending.Some?
    requires forall k :: 0 <= k < |f.posts| ==> f.posts[k].route.id == PostId(k + 1)
    ensures var g := Finish(f, u1, u2); forall k :: 0 <= k < |g.posts| ==> g.posts[k].route.id == PostId(k + 1)
  {
    var g := Finish(f, u1, u2);
    var n := |f.posts|;
    assert |g.posts| == n + 2 && g.posts[..n] == f.posts;
    forall k | 0 <= k < |g.posts| ensures g.posts[k].route.id == PostId(k + 1) {
      if k < n {
        assert g.posts[k] == g.posts[..n][k] == f.posts[k];
      } else if k == n {
        assert g.posts[n].route.id == PostId(n + 1);
      } else {
        assert g.posts[n + 1].route.id == PostId(n + 2);
      }
    }
  }

  /** The appended posts declare one of the known aspect classes. */
  lemma FinishAspects(f: Feed, u1: real, u2: real)
    requires ValidDraw(u1) && ValidDraw(u2) && f.pending.Some?
    requires forall k :: 0 <= k < |f.posts| ==> f.posts[k].aspectRatio.Some? && f.posts[k].aspectRatio.value in ASPECT_CLASSES
    ensures var g := Finish(f, u1, u2);
      forall k :: 0 <= k < |g.posts| ==> g.posts[k].aspectRatio.Some? && g.posts[k].aspectRatio.value in ASPECT_CLASSES
  {
    var g := Finish(f, u1, u2);
    var n := |f.posts|;
    var ps := NewPosts(n + 1, u1, u2);
    assert g.posts == f.posts + ps;
    forall k | 0 <= k < |g.posts| ensures g.posts[k].aspectRatio.Some? && g.posts[k].aspectRatio.value in ASPECT_CLASSES {
      if k < n {
        assert g.posts[k] == f.posts[k];
      } else {
        assert g.posts[k] == ps[k - n];
      }
    }
  }

  lemma {:induction false} FinishPreserves(f: Feed, u1: real, u2: real)
    requires Invariant(f) && ValidDraw(u1) && ValidDraw(u2)
    ensures Invariant(Finish(f, u1, u2))
  {
    if f.pending.Some? {
      var g := Finish(f, u1, u2);
      var n := |f.posts|;
      FinishNumbers(f, u1, u2);
      FinishAspects(f, u1, u2);
      EvenPlusTwo(n);
      assert |g.posts| == n + 2 && n <= CEILING + 2;
      assert g.hasMore ==> n <= CEILING;
    }
  }

  lemma {:induction false} StepPreserves(f: Feed, e: Event)
    requires Invariant(f) && ValidEvent(e)
    ensures Invariant(Step(f, e))
  {
    match e
    case Scroll(c) =>
    case TapTab(t) => SeedsInvariant();
    case Timer(u1, u2) => FinishPreserves(f, u1, u2);
  }

  lemma {:induction false} RunPreserves(f: Feed, es: seq<Event>)
    requires Invariant(f) && ValidEvents(es)
    ensures Invariant(Run(f, es))
    decreases |es|
  {
    if |es| > 0 {
      StepPreserves(f, es[0]);
      RunPreserves(Step(f, es[0]), es[1..]);
    }
  }

  /** Under any interleaving of scrolls, tab taps and timers, no two cards
      share an id (the list's React keys stay unique) and every card is drawn
      with the aspect class its post declares. */
  lemma UniqueIds(es: seq<Event>)
    requires ValidEvents(es)
    ensures var f := Run(Initial(), es);
      && (forall i, j :: 0 <= i < j < |f.posts| ==> f.posts[i].route.id != f.posts[j].route.id)
      && (forall k :: 0 <= k < |f.posts| ==> AspectRatioClass(f.posts[k]) in ASPECT_CLASSES)
  {
    InitialInvariant();
    RunPreserves(Initial(), es);
    var f := Run(Initial(), es);
    forall i, j | 0 <= i < j < |f.posts| ensures f.posts[i].route.id != f.posts[j].route.id {
      PostIdInjective(i + 1, j + 1);
    }
  }

  /** More posts become available again only through a change of tab. */
  lemma HasMoreOnlyRestoredByTab(f: Feed, e: Event)
    requires ValidEvent(e)
    ensures !f.hasMore && Step(f, e).hasMore ==> e.TapTab? && e.tab != f.tab
    ensures !f.hasMore && StepAsWritten(f, e).hasMore ==> e.TapTab? && e.tab != f.tab
  {
  }

  /** Consistent: a load in flight captured the current count. */
  ghost predicate Consistent(f: Feed) {
    f.pending.Some? ==> f.pending.value == |f.posts|
  }

  /** As written, the loader keeps the feed well formed as long as no tab
      change replaces the list while a load is in flight. */
  lemma {:induction false} AsWrittenPreservesWithoutSwitch(f: Feed, e: Event)
    requires Invariant(f) && Consistent(f) && ValidEvent(e)
    requires e.TapTab? && e.tab != f.tab ==> !f.isLoading
    ensures Invariant(StepAsWritten(f, e)) && Consistent(StepAsWritten(f, e))
  {
    match e
    case Scroll(c) =>
    case TapTab(t) => SeedsInvariant();
    case Timer(u1, u2) =>
      FinishAgreesWithoutSwitch(f, u1, u2);
      FinishPreserves(f, u1, u2);
  }

  /** A near-end scroll position. */
  const NEAR: Option<Geometry> := Some(Geometry(900.0, 1000.0, 50.0))

  /** Load twice, switching tab while the second load is in flight, then load
      once more. */
  const RACE: seq<Event> := [Scroll(NEAR), Timer(0.0, 0.0), Scroll(NEAR), TapTab(Follow), Timer(0.0, 0.0), Scroll(NEAR), Timer(0.0, 0.0)]

  /** Running the race sequence is running its seven steps in turn. */
  lemma RaceUnfolds(f: Feed)
    ensures ValidEvents(RACE)
    ensures RunAsWritten(f, RACE) ==
      StepAsWritten(StepAsWritten(StepAsWritten(StepAsWritten(StepAsWritten(StepAsWritten(StepAsWritten(
        f, RACE[0]), RACE[1]), RACE[2]), RACE[3]), RACE[4]), RACE[5]), RACE[6])
  {
    var e := RACE;
    var s1 := StepAsWritten(f, e[0]);
    var s2 := StepAsWritten(s1, e[1]);
    var s3 := StepAsWritten(s2, e[2]);
    var s4 := StepAsWritten(s3, e[3]);
    var s5 := StepAsWritten(s4, e[4]);
    var s6 := StepAsWritten(s5, e[5]);
    var s7 := StepAsWritten(s6, e[6]);
    assert e[7..] == [];
    assert e[6..][1..] == e[7..] && RunAsWritten(s6, e[6..]) == s7;
    assert e[5..][1..] == e[6..] && RunAsWritten(s5, e[5..]) == s7;
    assert e[4..][1..] == e[5..] && RunAsWritten(s4, e[4..]) == s7;
    assert e[3..][1..] == e[4..] && RunAsWritten(s3, e[3..]) == s7;
    assert e[2..][1..] == e[3..] && RunAsWritten(s2, e[2..]) == s7;
    assert e[1..][1..] == e[2..] && RunAsWritten(s1, e[1..]) == s7;
  }

  /** The first load of the race runs undisturbed and leaves six posts. */
  lemma RaceFirstLoad()
    ensures var f := StepAsWritten(StepAsWritten(Initial(), RACE[0]), RACE[1]);
      |f.posts| == 6 && f.hasMore && !f.isLoading && f.pending.None? && f.tab == Discover
  {
    assert NearEnd(NEAR.value);
  }

  /** From six posts on the first tab: load, switch tab mid-load, load again. */
  lemma RaceRest(f: Feed)
    requires |f.posts| == 6 && f.hasMore && !f.isLoading && f.pending.None? && f.tab == Discover
    ensures StepAsWritten(StepAsWritten(StepAsWritten(StepAsWritten(StepAsWritten(
      f, RACE[2]), RACE[3]), RACE[4]), RACE[5]), RACE[6]).posts == SEEDS + NewPosts(7, 0.0, 0.0) + NewPosts(7, 0.0, 0.0)
  {
    assert NearEnd(NEAR.value);
    assert RACE[2] == Scroll(NEAR) && RACE[3] == TapTab(Follow) && RACE[4] == Timer(0.0, 0.0);
    assert RACE[5] == Scroll(NEAR) && RACE[6] == Timer(0.0, 0.0);
    var ps := NewPosts(7, 0.0, 0.0);
    var f3 := HandleScroll(f, NEAR);
    assert f3.pending == Some(6) && f3.isLoading && f3.hasMore;
    var f4 := ChooseTab(f3, Follow);
    assert f4.posts == SEEDS && f4.pending == Some(6) && f4.hasMore;
    var f5 := FinishAsWritten(f4, 0.0, 0.0);
    assert f5.posts == SEEDS + ps && f5.hasMore && !f5.isLoading;
    assert |f5.posts| == 6;
    var f6 := HandleScroll(f5, NEAR);
    assert f6.pending == Some(6) && f6.posts == f5.posts;
    var f7 := FinishAsWritten(f6, 0.0, 0.0);
    assert f7.posts == SEEDS + ps + ps;
  }

  /** As written, that sequence leaves two cards with id d7: the load begun at
      six posts numbers its posts d7 and d8 but appends them to the four
      seeded posts, and the next load, again at six posts, creates d7 and d8 a
      second time. */
  lemma AsWrittenDuplicateIds()
    ensures ValidEvents(RACE)
    ensures var f := RunAsWritten(Initial(), RACE);
      |f.posts| == 8 && f.posts[4].route.id == PostId(7) && f.posts[6].route.id == PostId(7)
  {
    RaceUnfolds(Initial());
    RaceFirstLoad();
    RaceRest(StepAsWritten(StepAsWritten(Initial(), RACE[0]), RACE[1]));
    var ps := NewPosts(7, 0.0, 0.0);
    var posts := SEEDS + ps + ps;
    assert posts[4] == ps[0] && posts[6] == ps[0];
  }
}
