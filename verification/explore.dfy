/** The explore screen's route feed (views/ExploreView.tsx): a category
    filter and a stable descending sort derived from the loaded routes, a
    loader that appends three generated routes per request until the list
    reaches its ceiling, and the scroll-proximity trigger that calls it. */
module ExploreFeed {
  import opened Types
  import opened Text
  import opened Decimal
  import opened Seqs
  import opened StableSort

  /** A route as the feed holds it: the travel route plus when it was
      published, its category tag and its author's user id. */
  datatype FeedRoute = FeedRoute(
    route: TravelRoute,
    userId: string,
    publishTime: string,
    timestamp: real,
    category: string)

  /** The tag that shows every route. */
  const ALL_TAG: string := "发现"

  const CATEGORIES: seq<string> :=
    ["发现", "City Walk", "徒步登山", "周末去哪", "摄影", "骑行", "亲子", "越野跑", "古镇", "自驾", "美食", "露营"]

  datatype SortType = Latest | Rating | Distance

  /** The label of the sort button for the active criterion. */
  function SortLabel(t: SortType): string {
    match t
    case Latest => "最新发布"
    case Rating => "评分最高"
    case Distance => "距离最长"
  }

  /** The sort menu's entries, in display order. */
  const SORT_MENU: seq<(SortType, string)> :=
    [(Latest, "最新发布"), (Rating, "评分最高"), (Distance, "距离最长")]

  /** The button shows the label of the menu entry that is selected, the menu
      offers each criterion once, and distinct criteria have distinct labels. */
  lemma SortMenuMatchesLabel()
    ensures forall i :: 0 <= i < |SORT_MENU| ==> SortLabel(SORT_MENU[i].0) == SORT_MENU[i].1
    ensures forall t: SortType :: (t, SortLabel(t)) in SORT_MENU
    ensures forall t: SortType, u: SortType :: SortLabel(t) == SortLabel(u) ==> t == u
  {
  }

  function MakeRoute(id: string, title: string, author: string, avatar: string, distance: string,
                     time: string, climb: string, rating: real, cover: string): TravelRoute
  {
    TravelRoute(id, title, author, avatar, distance, time, climb, rating, cover, [], None)
  }

  /** The three routes the screen starts with; `now` is `Date.now()`. */
  function Seed(now: int): seq<FeedRoute> {
    [ FeedRoute(MakeRoute("1", "京都深处的秘密茶室徒步", "TravelGuru", "https://picsum.photos/seed/guru/100/100",
                          "4.5km", "1.5h", "124m", 4.9, "https://picsum.photos/seed/kyoto/600/400"),
                "u101", "2小时前", (now - 7200000) as real, "发现"),
      FeedRoute(MakeRoute("2", "厦门：海岸线漫步与隐世风景", "小林在路上", "https://picsum.photos/seed/xiaolin/100/100",
                          "8.2km", "3h", "45m", 4.8, "https://picsum.photos/seed/xiamen/600/400"),
                "u102", "昨天", (now - 86400000) as real, "City Walk"),
      FeedRoute(MakeRoute("3", "武功山云海徒步挑战", "巅峰行者", "https://picsum.photos/seed/peak/100/100",
                          "15.0km", "6h", "850m", 5.0, "https://picsum.photos/seed/mountain/600/400"),
                "u103", "3天前", (now - 259200000) as real, "徒步登山") ]
  }

  // ---------------------------------------------------------------------------
  // Filter and sort

  /** Accepts the routes tagged `tag`. */
  function HasCategory(tag: string): FeedRoute -> bool {
    (r: FeedRoute) => r.category == tag
  }

  /** The category filter: the "all" tag passes every route, any other tag
      exactly the routes carrying it, each as often as it occurs and in the
      loaded order. */
  function FilterByTag(tag: string, routes: seq<FeedRoute>): (r: seq<FeedRoute>)
    ensures tag == ALL_TAG ==> r == routes
    ensures tag != ALL_TAG ==> forall x :: multiset(r)[x] == if x.category == tag then multiset(routes)[x] else 0
    ensures IsSubsequence(r, routes)
  {
    if tag == ALL_TAG then
      FilterAll((x: FeedRoute) => true, routes);
      FilterIsSubsequence((x: FeedRoute) => true, routes);
      routes
    else
      FilterCounts(HasCategory(tag), routes);
      FilterIsSubsequence(HasCategory(tag), routes);
      Filter(HasCategory(tag), routes)
  }

  /** The distance sort key: what `parseFloat` reads from the distance string.
      A string without a leading number (NaN in the source) counts as 0. */
  function DistanceKey(distance: string): real {
    ParseFloat(distance).GetOr(0.0)
  }

  function SortKey(t: SortType, r: FeedRoute): real {
    match t
    case Latest => r.timestamp
    case Rating => r.route.rating
    case Distance => DistanceKey(r.route.distance)
  }

  function KeyOf(t: SortType): FeedRoute -> real {
    (r: FeedRoute) => SortKey(t, r)
  }

  /** `filteredAndSortedRoutes`: the filtered routes sorted by the criterion,
      largest key first, ties in loaded order. */
  function Derive(routes: seq<FeedRoute>, tag: string, sortType: SortType): (r: seq<FeedRoute>)
    ensures multiset(r) == multiset(FilterByTag(tag, routes))
    ensures Descending(KeyOf(sortType), r)
    ensures PreservesTies(KeyOf(sortType), FilterByTag(tag, routes), r)
  {
    var filtered := FilterByTag(tag, routes);
    SortIsStable(KeyOf(sortType), filtered);
    Sort(KeyOf(sortType), filtered)
  }

  /** What each criterion orders by: newest first, best rated first, longest
      first. */
  lemma DeriveOrder(routes: seq<FeedRoute>, tag: string, sortType: SortType, i: int, j: int)
    requires 0 <= i < j < |Derive(routes, tag, sortType)|
    ensures var r := Derive(routes, tag, sortType);
      match sortType
      case Latest => r[i].timestamp >= r[j].timestamp
      case Rating => r[i].route.rating >= r[j].route.rating
      case Distance => DistanceKey(r[i].route.distance) >= DistanceKey(r[j].route.distance)
  {
    var r := Derive(routes, tag, sortType);
    assert KeyOf(sortType)(r[i]) >= KeyOf(sortType)(r[j]);
  }

  /** The displayed list holds exactly the routes the filter admits: no route
      is added or lost by sorting. */
  lemma DeriveMembership(routes: seq<FeedRoute>, tag: string, sortType: SortType, x: FeedRoute)
    ensures x in Derive(routes, tag, sortType) <==> x in routes && (tag == ALL_TAG || x.category == tag)
  {
    var r := Derive(routes, tag, sortType);
    assert x in r <==> multiset(r)[x] > 0;
    assert x in routes <==> multiset(routes)[x] > 0;
  }

  /** The seeded feed sorted by recency is routes 1, 2, 3 (two hours, one day
      and three days old). */
  lemma SeedByLatest(now: int)
    ensures Derive(Seed(now), ALL_TAG, Latest) == Seed(now)
  {
    var s := Seed(now);
    var k := KeyOf(Latest);
    assert Insert(k, s[2], []) == [s[2]];
    assert s[1..][1..] == [s[2]];
    assert Sort(k, [s[2]]) == [s[2]];
    assert Insert(k, s[1], [s[2]]) == [s[1], s[2]];
    assert Sort(k, s[1..]) == [s[1], s[2]];
    assert Insert(k, s[0], [s[1], s[2]]) == s;
  }

  /** The seeded feed sorted by rating is route 3 (5.0), route 1 (4.9), route 2 (4.8). */
  lemma SeedByRating(now: int)
    ensures var s := Seed(now); Derive(s, ALL_TAG, Rating) == [s[2], s[0], s[1]]
  {
    var s := Seed(now);
    var k := KeyOf(Rating);
    assert s[1..][1..] == [s[2]];
    assert Sort(k, [s[2]]) == [s[2]];
    assert Insert(k, s[1], [s[2]]) == [s[2], s[1]];
    assert Sort(k, s[1..]) == [s[2], s[1]];
    assert Insert(k, s[0], [s[1]]) == [s[0], s[1]];
    assert Insert(k, s[0], [s[2], s[1]]) == [s[2], s[0], s[1]];
  }

  /** A distance written with one decimal and "km" sorts by its value. */
  lemma DistanceOfTenths(tenths: nat)
    ensures DistanceKey(TenthsToString(tenths) + "km") == tenths as real / 10.0
  {
    assert ExponentPart("km").None?;
    ParseTenths(tenths, "km");
  }

  /** The seeded distances read as `parseFloat` reads them: "4.5km" is 4.5,
      "8.2km" is 8.2 and "15.0km" is 15. */
  lemma SeedDistanceKeys()
    ensures DistanceKey("4.5km") == 4.5 && DistanceKey("8.2km") == 8.2 && DistanceKey("15.0km") == 15.0
  {
    assert NatToString(15) == "15" by {
      assert NatToString(1) == "1";
    }
    assert TenthsToString(45) + "km" == "4.5km";
    assert TenthsToString(82) + "km" == "8.2km";
    assert TenthsToString(150) + "km" == "15.0km";
    DistanceOfTenths(45);
    DistanceOfTenths(82);
    DistanceOfTenths(150);
  }

  /** Three items with strictly increasing keys come out reversed. */
  lemma SortAscendingThree<T>(k: T -> real, s: seq<T>)
    requires |s| == 3 && k(s[0]) < k(s[1]) < k(s[2])
    ensures Sort(k, s) == [s[2], s[1], s[0]]
  {
    assert s[1..][1..] == [s[2]];
    assert Sort(k, [s[2]]) == [s[2]];
    assert Insert(k, s[1], []) == [s[1]];
    assert Insert(k, s[1], [s[2]]) == [s[2]] + Insert(k, s[1], []);
    assert Sort(k, s[1..]) == [s[2], s[1]];
    assert Insert(k, s[0], []) == [s[0]];
    assert Insert(k, s[0], [s[1]]) == [s[1]] + Insert(k, s[0], []);
    assert [s[2], s[1]][1..] == [s[1]];
    assert Insert(k, s[0], [s[2], s[1]]) == [s[2]] + Insert(k, s[0], [s[1]]);
  }

  lemma KeyIsDistance(r: FeedRoute, d: string, v: real)
    requires r.route.distance == d && DistanceKey(d) == v
    ensures KeyOf(Distance)(r) == v
  {
  }

  /** The seeded feed sorted by distance is route 3 (15 km), route 2 (8.2 km), route 1 (4.5 km). */
  lemma SeedByDistance(now: int)
    ensures var s := Seed(now); Derive(s, ALL_TAG, Distance) == [s[2], s[1], s[0]]
  {
    var s := Seed(now);
    var k := KeyOf(Distance);
    SeedDistanceKeys();
    KeyIsDistance(s[0], "4.5km", 4.5);
    KeyIsDistance(s[1], "8.2km", 8.2);
    KeyIsDistance(s[2], "15.0km", 15.0);
    SortAscendingThree(k, s);
  }

  /** Choosing the "City Walk" tag on the seeded feed shows route 2 alone. */
  lemma SeedCityWalk(now: int, sortType: SortType)
    ensures Derive(Seed(now), "City Walk", sortType) == [Seed(now)[1]]
  {
    var s := Seed(now);
    var p := HasCategory("City Walk");
    assert s[1..][1..] == [s[2]];
    assert Filter(p, [s[2]]) == [];
    assert Filter(p, s[1..]) == [s[1]];
    assert Filter(p, s) == [s[1]];
    assert Sort(KeyOf(sortType), [s[1]]) == [s[1]];
  }

  // ---------------------------------------------------------------------------
  // Paginated loading

  /** The loader's state: the loaded routes and the two flags. */
  datatype Feed = Feed(routes: seq<FeedRoute>, isLoading: bool, hasMore: bool)

  function InitialFeed(now: int): Feed {
    Feed(Seed(now), false, true)
  }

  const BATCH: nat := 3
  const CEILING: nat := 20
  const SCROLL_THRESHOLD: real := 150.0

  /** The random inputs of one generated route. The rounded distance and
      rating are given in tenths, as `toFixed(1)` yields them; every other
      field is a `Math.random()` draw. */
  datatype Draw = Draw(
    distanceTenths: nat,
    ratingTenths: nat,
    hours: real,
    climb: real,
    days: real,
    age: real,
    category: real)

  predicate ValidDraw(d: Draw) {
    && 20 <= d.distanceTenths <= 120 && 40 <= d.ratingTenths <= 50
    && 0.0 <= d.hours < 1.0 && 0.0 <= d.climb < 1.0 && 0.0 <= d.days < 1.0
    && 0.0 <= d.age < 1.0 && 0.0 <= d.category < 1.0
  }

  /** `CATEGORIES[Math.floor(u * CATEGORIES.length)]` for a draw `u` in [0, 1). */
  function PickCategory(u: real): (c: string)
    requires 0.0 <= u < 1.0
    ensures c in CATEGORIES
  {
    var i := FloorNat(u * |CATEGORIES| as real);
    CATEGORIES[i]
  }

  /** The route generated at position `i` of a batch loaded when `count`
      routes were present. */
  function NewRoute(count: nat, i: nat, now: int, d: Draw): (r: FeedRoute)
    requires ValidDraw(d)
    ensures r.route.id == NatToString(count + i + 1)
    ensures r.category in CATEGORIES
  {
    var id := NatToString(count + i + 1);
    var seed := "route_" + id;
    FeedRoute(
      MakeRoute(id, "探索新路线 #" + id + "：未被发掘的秘境", "探路人_" + id,
                "https://picsum.photos/seed/" + seed + "_avatar/100/100",
                TenthsToString(d.distanceTenths) + "km",
                NatToString(FloorNat(d.hours * 5.0 + 1.0)) + "h",
                NatToString(FloorNat(d.climb * 500.0)) + "m",
                d.ratingTenths as real / 10.0,
                "https://picsum.photos/seed/" + seed + "_cover/600/400"),
      "u" + NatToString(100 + count + i),
      NatToString(FloorNat(d.days * 10.0 + 1.0)) + "天前",
      now as real - d.age * 1000000000.0,
      PickCategory(d.category))
  }

  /** A generated route's distance sorts by the rounded value it displays. */
  lemma NewRouteDistanceKey(count: nat, i: nat, now: int, d: Draw)
    requires ValidDraw(d)
    ensures DistanceKey(NewRoute(count, i, now, d).route.distance) == d.distanceTenths as real / 10.0
  {
    ParseTenths(d.distanceTenths, "km");
  }

  predicate ValidDraws(draws: seq<Draw>) {
    |draws| == BATCH && forall i :: 0 <= i < |draws| ==> ValidDraw(draws[i])
  }

  /** One `loadMoreData` call, taken as a whole (the 1.5 s delay elapses with
      no other event): ignored while loading or once exhausted; otherwise it
      appends three generated routes numbered after the current ones, clears
      `isLoading`, and clears `hasMore` when the list has reached the ceiling. */
  function LoadMore(f: Feed, now: int, draws: seq<Draw>): (g: Feed)
    requires ValidDraws(draws)
    ensures f.isLoading || !f.hasMore ==> g == f
    ensures !f.isLoading && f.hasMore ==>
      && |g.routes| == |f.routes| + BATCH
      && g.routes[..|f.routes|] == f.routes
      && (forall i :: |f.routes| <= i < |g.routes| ==> g.routes[i].route.id == NatToString(i + 1) && g.routes[i].category in CATEGORIES)
      && !g.isLoading
      && (g.hasMore <==> |f.routes| + BATCH < CEILING)
    ensures g.hasMore ==> f.hasMore
  {
    if f.isLoading || !f.hasMore then f
    else
      var n := |f.routes|;
      var batch := Batch(n, now, draws);
      var routes := f.routes + batch;
      assert routes[..n] == f.routes;
      assert forall i :: n <= i < |routes| ==> routes[i] == batch[i - n];
      Feed(routes, false, if n + |batch| >= CEILING then false else f.hasMore)
  }

  /** The three routes one load generates after `count` present ones. */
  function Batch(count: nat, now: int, draws: seq<Draw>): (b: seq<FeedRoute>)
    requires ValidDraws(draws)
    ensures |b| == BATCH
    ensures forall i :: 0 <= i < BATCH ==> b[i].route.id == NatToString(count + i + 1) && b[i].category in CATEGORIES
  {
    var b := [NewRoute(count, 0, now, draws[0]), NewRoute(count, 1, now, draws[1]), NewRoute(count, 2, now, draws[2])];
    assert forall i :: 0 <= i < BATCH ==> b[i] == NewRoute(count, i, now, draws[i]);
    b
  }

  /** Less than the threshold remains below the visible part. */
  predicate NearEnd(g: Geometry) {
    g.Remaining() < SCROLL_THRESHOLD
  }

  /** `handleScroll`: calls the loader when the container is mounted and near
      its end, and does nothing otherwise. */
  function HandleScroll(f: Feed, container: Option<Geometry>, now: int, draws: seq<Draw>): (g: Feed)
    requires ValidDraws(draws)
    ensures container.None? || !NearEnd(container.value) ==> g == f
    ensures container.Some? && NearEnd(container.value) ==> g == LoadMore(f, now, draws)
  {
    match container
    case None => f
    case Some(geom) => if NearEnd(geom) then LoadMore(f, now, draws) else f
  }

  // ---------------------------------------------------------------------------
  // What every reachable feed satisfies

  /** The feed after any number of whole loads from the seed: the route at
      index k has id k+1, every category is one of the tags, the length is a
      multiple of three between 3 and 21, `hasMore` holds exactly while fewer
      than 21 routes are loaded, and nothing is loading. */
  ghost predicate Invariant(f: Feed) {
    && !f.isLoading
    && |f.routes| % BATCH == 0 && BATCH <= |f.routes| <= CEILING + 1
    && (f.hasMore <==> |f.routes| < CEILING + 1)
    && (forall k :: 0 <= k < |f.routes| ==> f.routes[k].route.id == NatToString(k + 1))
    && (forall k :: 0 <= k < |f.routes| ==> f.routes[k].category in CATEGORIES)
  }

  lemma InitialInvariant(now: int)
    ensures Invariant(InitialFeed(now))
  {
    var s := Seed(now);
    assert s[0].route.id == NatToString(1);
    assert s[1].route.id == NatToString(2);
    assert s[2].route.id == NatToString(3);
    assert CATEGORIES[0] == s[0].category && CATEGORIES[1] == s[1].category && CATEGORIES[2] == s[2].category;
  }

  lemma LoadMorePreserves(f: Feed, now: int, draws: seq<Draw>)
    requires Invariant(f) && ValidDraws(draws)
    ensures Invariant(LoadMore(f, now, draws))
  {
    if f.hasMore {
      AppendPreserves(f, LoadMore(f, now, draws));
    }
  }

  /** A load's effect, as its contract states it, keeps the invariant. */
  lemma AppendPreserves(f: Feed, g: Feed)
    requires Invariant(f) && f.hasMore
    requires |g.routes| == |f.routes| + BATCH && g.routes[..|f.routes|] == f.routes
    requires forall i :: |f.routes| <= i < |g.routes| ==> g.routes[i].route.id == NatToString(i + 1) && g.routes[i].category in CATEGORIES
    requires !g.isLoading && (g.hasMore <==> |f.routes| + BATCH < CEILING)
    ensures Invariant(g)
  {
    var n := |f.routes|;
    assert n <= 18;
    forall k | 0 <= k < n
      ensures g.routes[k].route.id == NatToString(k + 1) && g.routes[k].category in CATEGORIES
    {
      assert g.routes[k] == g.routes[..n][k];
    }
  }

  lemma HandleScrollPreserves(f: Feed, container: Option<Geometry>, now: int, draws: seq<Draw>)
    requires Invariant(f) && ValidDraws(draws)
    ensures Invariant(HandleScroll(f, container, now, draws))
  {
    if container.Some? && NearEnd(container.value) {
      LoadMorePreserves(f, now, draws);
    }
  }

  /** In a reachable feed no two routes share an id, and at most 21 are loaded. */
  lemma InvariantUniqueIds(f: Feed)
    requires Invariant(f)
    ensures forall i, j :: 0 <= i < j < |f.routes| ==> f.routes[i].route.id != f.routes[j].route.id
    ensures |f.routes| <= 21
  {
    forall i, j | 0 <= i < j < |f.routes| ensures f.routes[i].route.id != f.routes[j].route.id {
      NatToStringInjective(i + 1, j + 1);
    }
  }

  /** Once exhausted the feed never changes again, however often the trigger fires. */
  lemma ExhaustedIsFinal(f: Feed, container: Option<Geometry>, now: int, draws: seq<Draw>)
    requires !f.hasMore && ValidDraws(draws)
    ensures HandleScroll(f, container, now, draws) == f
  {
  }
}
