/** The route detail page (views/DetailView.tsx): it needs a route in the
    navigation state and otherwise redirects home; it shows the distance and
    climb without their units, an AI summary with a fallback text, like,
    bookmark and follow toggles, and a like toggle per comment. */
module Detail {
  import opened Types
  import opened Text
  import opened Decimal

  /** Which comments I have liked, by comment number; a missing key is "not liked". */
  type CommentLikes = map<int, bool>

  /** The page: either the redirect taken without a route, or the route with
      the page's toggles. */
  datatype Detail =
    | RedirectHome
    | Page(route: TravelRoute, isLiked: bool, isBookmarked: bool, isFollowing: bool, commentLikes: CommentLikes)

  /** Opening the page: without a route it redirects to '/'; with one it starts
      with every toggle off and no comment liked. */
  function Open(route: Option<TravelRoute>): (d: Detail)
    ensures d.RedirectHome? <==> route.None?
    ensures d.Page? ==> d.route == route.value && !d.isLiked && !d.isBookmarked && !d.isFollowing
    ensures d.Page? ==> forall i :: !Liked(d.commentLikes, i)
  {
    match route
    case None => RedirectHome
    case Some(r) => Page(r, false, false, false, map[])
  }

  predicate Liked(likes: CommentLikes, id: int) {
    id in likes && likes[id]
  }

  /** `toggleCommentLike(id)`: comment `id` flips between liked and not liked
      (an absent entry counting as not liked); every other entry is kept. */
  function ToggleCommentLike(likes: CommentLikes, id: int): (r: CommentLikes)
    ensures id in r && (Liked(r, id) <==> !Liked(likes, id))
    ensures forall k :: k != id ==> (k in r <==> k in likes)
    ensures forall k :: k != id && k in likes ==> r[k] == likes[k]
  {
    likes[id := !Liked(likes, id)]
  }

  /** Two toggles of one comment give back what the page displays for every
      comment, and the very map once the comment has an entry. */
  lemma ToggleCommentLikeTwice(likes: CommentLikes, id: int)
    ensures forall k :: Liked(ToggleCommentLike(ToggleCommentLike(likes, id), id), k) == Liked(likes, k)
    ensures id in likes ==> ToggleCommentLike(ToggleCommentLike(likes, id), id) == likes
  {
    var r := ToggleCommentLike(ToggleCommentLike(likes, id), id);
    if id in likes {
      assert r.Keys == likes.Keys;
    }
  }

  /** The like count shown under comment `id`: 12, or 13 while I like it. */
  function CommentLikeCount(likes: CommentLikes, id: int): (n: nat)
    ensures n == 12 || n == 13
    ensures n == 13 <==> Liked(likes, id)
  {
    12 + (if Liked(likes, id) then 1 else 0)
  }

  /** Toggling one comment's like moves its count by exactly one and leaves
      every other comment's count alone. */
  lemma ToggleMovesCount(likes: CommentLikes, id: int)
    ensures var r := ToggleCommentLike(likes, id);
      && (CommentLikeCount(r, id) == CommentLikeCount(likes, id) + 1 || CommentLikeCount(r, id) + 1 == CommentLikeCount(likes, id))
      && forall k :: k != id ==> CommentLikeCount(r, k) == CommentLikeCount(likes, k)
  {
  }

  /** The distance figure: the distance with its first "km" removed. */
  function DisplayDistance(distance: string): string {
    ReplaceFirst(distance, "km", "")
  }

  /** The climb figure: the climb with its first "m" removed. */
  function DisplayClimb(climb: string): string {
    ReplaceFirst(climb, "m", "")
  }

  /** A unit appended to a number that contains no letter of the unit's first
      character is stripped off exactly. */
  lemma StripUnit(x: string, unit: string)
    requires |unit| > 0 && forall i :: 0 <= i < |x| ==> x[i] != unit[0]
    ensures ReplaceFirst(x + unit, unit, "") == x
  {
    var s := x + unit;
    assert OccursAt(s, unit, |x|);
    forall j | 0 <= j < |x| ensures !OccursAt(s, unit, j) {
      assert s[j] == x[j];
      if j + |unit| <= |s| {
        assert s[j..j + |unit|][0] == s[j];
      }
    }
    var i := IndexOf(s, unit).value;
    assert i == |x|;
    assert s[..i] == x && s[i + |unit|..] == [];
  }

  /** Text without a "km" ("5 miles") is shown as it is. */
  lemma DisplayDistanceWithoutUnit(distance: string)
    requires !Contains(distance, "km")
    ensures DisplayDistance(distance) == distance
  {
  }

  /** A one-decimal distance in km shows as its number: "4.5km" reads "4.5". */
  lemma DisplayDistanceOfTenths(tenths: nat)
    ensures DisplayDistance(TenthsToString(tenths) + "km") == TenthsToString(tenths)
  {
    var x := TenthsToString(tenths);
    var w := NatToString(tenths / 10);
    assert x == w + "." + [DigitChar(tenths % 10)];
    forall i | 0 <= i < |x| ensures x[i] != 'k' {
      if i < |w| {
        assert x[i] == w[i];
      }
    }
    StripUnit(x, "km");
  }

  /** An integer climb in metres shows as its number: "124m" reads "124". */
  lemma DisplayClimbOfMetres(n: nat)
    ensures DisplayClimb(NatToString(n) + "m") == NatToString(n)
  {
    var x := NatToString(n);
    assert forall i :: 0 <= i < |x| ==> IsDigit(x[i]);
    StripUnit(x, "m");
  }

  /** The display-and-parse round trip: the figure shown for a generated
      distance parses back to the value the route sorts by. */
  lemma DisplayedDistanceParses(tenths: nat)
    ensures ParseFloat(DisplayDistance(TenthsToString(tenths) + "km")) == Some(tenths as real / 10.0)
    ensures ParseFloat(DisplayDistance(TenthsToString(tenths) + "km")) == ParseFloat(TenthsToString(tenths) + "km")
  {
    var x := TenthsToString(tenths);
    var v := Some(tenths as real / 10.0);
    calc {
      ParseFloat(DisplayDistance(x + "km"));
      { DisplayDistanceOfTenths(tenths); }
      ParseFloat(x);
      { assert x + "" == x; }
      ParseFloat(x + "");
      { ParseTenths(tenths, ""); }
      v;
    }
    assert ExponentPart("km").None?;
    ParseTenths(tenths, "km");
  }

  const FALLBACK_SUMMARY: string := "这条路线极具观赏性，适合午后慢行。AI 已经为你规划了最佳休息点。"

  /** The AI summary box: the route's summary, or the fallback when it is
      absent or empty. */
  function Summary(route: TravelRoute): (s: string)
    ensures route.aiSummary.Some? && route.aiSummary.value != "" ==> s == route.aiSummary.value
    ensures route.aiSummary.None? || route.aiSummary.value == "" ==> s == FALLBACK_SUMMARY
  {
    match route.aiSummary
    case Some(t) => if t != "" then t else FALLBACK_SUMMARY
    case None => FALLBACK_SUMMARY
  }

  /** The three buttons of the page: each flips its own flag and nothing else. */
  function ToggleLike(d: Detail): (r: Detail)
    requires d.Page?
    ensures r.Page? && r.isLiked == !d.isLiked && r.(isLiked := d.isLiked) == d
  {
    d.(isLiked := !d.isLiked)
  }

  function ToggleBookmark(d: Detail): (r: Detail)
    requires d.Page?
    ensures r.Page? && r.isBookmarked == !d.isBookmarked && r.(isBookmarked := d.isBookmarked) == d
  {
    d.(isBookmarked := !d.isBookmarked)
  }

  function ToggleFollow(d: Detail): (r: Detail)
    requires d.Page?
    ensures r.Page? && r.isFollowing == !d.isFollowing && r.(isFollowing := d.isFollowing) == d
  {
    d.(isFollowing := !d.isFollowing)
  }

  /** The follow button's label. */
  function FollowLabel(d: Detail): (text: string)
    requires d.Page?
    ensures text == "已关注" <==> d.isFollowing
    ensures text == "关注" <==> !d.isFollowing
  {
    if d.isFollowing then "已关注" else "关注"
  }

  /** The page toggles are involutions. */
  lemma TogglesTwice(d: Detail)
    requires d.Page?
    ensures ToggleLike(ToggleLike(d)) == d && ToggleBookmark(ToggleBookmark(d)) == d && ToggleFollow(ToggleFollow(d)) == d
  {
  }
}
