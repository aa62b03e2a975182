/** The route card of the grids (components/RouteCard.tsx): an optional
    category badge over the cover, and a subtitle that reads the publishing
    age when the route has one and the route's time otherwise. */
module RouteCard {
  import opened Types
  import opened Text

  /** `publishDaysAgo`, which the card takes as a number of days or as a
      ready-made phrase. */
  datatype PublishedAgo = Absent | Days(n: int) | Phrase(text: string)

  /** Whether `publishDaysAgo` is truthy: a non-zero number or a non-empty string. */
  predicate Present(ago: PublishedAgo) {
    match ago
    case Absent => false
    case Days(n) => n != 0
    case Phrase(t) => t != ""
  }

  /** The subtitle: a count of days reads "<n>天前发布", a phrase reads
      "<phrase>发布", and without either the card shows the route's time. */
  function Subtitle(time: string, ago: PublishedAgo): (s: string)
    ensures !Present(ago) ==> s == time
    ensures Present(ago) ==> |s| >= 3 && s[|s| - 2..] == "发布"
    ensures ago.Phrase? && ago.text != "" ==> s == ago.text + "发布"
    ensures ago.Days? && ago.n != 0 ==> s == IntToString(ago.n) + "天前发布"
  {
    match ago
    case Days(n) => if n != 0 then IntToString(n) + "天前" + "发布" else time
    case Phrase(t) => if t != "" then t + "发布" else time
    case Absent => time
  }

  /** A positive count reads back from its subtitle: the text before
      "天前发布" is the count's digits. */
  lemma DaysRoundTrip(time: string, n: nat)
    requires n > 0
    ensures var s := Subtitle(time, Days(n));
      && |s| > 4 && s[|s| - 4..] == "天前发布"
      && AllDigits(s[..|s| - 4]) && DigitsValue(s[..|s| - 4]) == n
  {
    var s := Subtitle(time, Days(n));
    assert s == NatToString(n) + "天前发布";
    assert s[..|s| - 4] == NatToString(n);
    NatToStringRoundTrip(n);
  }

  /** So two cards with positive counts show the same subtitle exactly when
      the counts agree. */
  lemma DaysInjective(time: string, m: nat, n: nat)
    requires m > 0 && n > 0
    ensures Subtitle(time, Days(m)) == Subtitle(time, Days(n)) <==> m == n
  {
    DaysRoundTrip(time, m);
    DaysRoundTrip(time, n);
  }

  /** The profile's cards: three days reads 3天前发布. */
  lemma ThreeDays(time: string)
    ensures Subtitle(time, Days(3)) == "3天前发布"
  {
  }

  /** The category badge is drawn, with the tag as its text, exactly when
      the tag is a non-empty string. */
  function TagBadge(tag: Option<string>): (badge: Option<string>)
    ensures badge.Some? <==> tag.Some? && tag.value != ""
    ensures badge.Some? ==> badge.value == tag.value
  {
    if tag.Some? && tag.value != "" then tag else None
  }
}
