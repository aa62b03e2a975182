/** The direct-message list (views/MessagesView.tsx): a fixed list of chat
    threads narrowed by a case-insensitive search on the contact's name. */
module Messages {
  import opened Types
  import opened Text
  import opened Seqs

  /** A conversation with one contact (`ChatThread`). */
  datatype Thread = Thread(
    id: string,
    userName: string,
    userAvatar: string,
    lastMessage: string,
    time: string,
    unreadCount: nat,
    isOnline: bool)

  const THREADS: seq<Thread> := [
    Thread("peak_walker", "巅峰行者", "https://picsum.photos/seed/peak/150/150", "谢谢！就在龙龛码头往北走500米...", "2分钟前", 1, true),
    Thread("u_xiaolin", "小林在路上", "https://picsum.photos/seed/xiaolin/100/100", "好的，下次一起出发！", "1小时前", 0, false),
    Thread("u_travelguru", "TravelGuru", "https://picsum.photos/seed/guru/100/100", "[语音] 0:12", "昨天", 0, true)
  ]

  /** The lower-cased name contains the lower-cased query. */
  predicate Matches(query: string, t: Thread) {
    Contains(Lower(t.userName), Lower(query))
  }

  function MatchesQuery(query: string): Thread -> bool {
    (t: Thread) => Matches(query, t)
  }

  /** `filteredThreads`: the threads whose name matches, in list order and
      with their repeats. */
  function Search(threads: seq<Thread>, query: string): (r: seq<Thread>)
    ensures IsSubsequence(r, threads)
    ensures forall t :: t in r <==> t in threads && Matches(query, t)
    ensures forall t :: multiset(r)[t] == if Matches(query, t) then multiset(threads)[t] else 0
  {
    FilterIsSubsequence(MatchesQuery(query), threads);
    FilterCounts(MatchesQuery(query), threads);
    forall t ensures t in Filter(MatchesQuery(query), threads) <==> t in threads && Matches(query, t) {
      FilterMembership(MatchesQuery(query), threads, t);
    }
    Filter(MatchesQuery(query), threads)
  }

  /** Every string contains the empty string, so an empty query lists every thread. */
  lemma EmptyQueryShowsAll(threads: seq<Thread>)
    ensures Search(threads, "") == threads
  {
    forall i | 0 <= i < |threads| ensures Matches("", threads[i]) {
      assert OccursAt(Lower(threads[i].userName), Lower(""), 0);
    }
    FilterAll(MatchesQuery(""), threads);
  }

  /** Queries that agree up to ASCII letter case give the same result. */
  lemma SearchIgnoresCase(threads: seq<Thread>, q1: string, q2: string)
    requires Lower(q1) == Lower(q2)
    ensures Search(threads, q1) == Search(threads, q2)
  {
    FilterCongruent(MatchesQuery(q1), MatchesQuery(q2), threads);
  }

  /** Lower-casing a query does not change its result. */
  lemma SearchOfLowered(threads: seq<Thread>, q: string)
    ensures Search(threads, Lower(q)) == Search(threads, q)
  {
    var l := Lower(q);
    forall i | 0 <= i < |q| ensures Lower(l)[i] == Lower(q)[i] {
      assert 'A' <= l[i] <= 'Z' ==> false;
    }
    SearchIgnoresCase(threads, Lower(q), q);
  }

  /** The empty-state placeholder is shown exactly when no thread matches. */
  predicate ShowsEmptyState(threads: seq<Thread>, query: string) {
    |Search(threads, query)| == 0
  }

  lemma EmptyStateIff(threads: seq<Thread>, query: string)
    ensures ShowsEmptyState(threads, query) <==> forall i :: 0 <= i < |threads| ==> !Matches(query, threads[i])
  {
    FilterEmpty(MatchesQuery(query), threads);
  }

  /** Searching "GURU" finds the TravelGuru thread alone. */
  lemma SearchGuru()
    ensures Search(THREADS, "GURU") == [THREADS[2]]
  {
    GuruFilter();
  }

  lemma GuruFilter()
    ensures Filter(MatchesQuery("GURU"), THREADS) == [THREADS[2]]
  {
    var p := MatchesQuery("GURU");
    assert Lower("GURU") == "guru";
    assert Lower("TravelGuru") == "travelguru";
    assert OccursAt("travelguru", "guru", 6);
    assert Lower("巅峰行者") == "巅峰行者";
    assert "巅峰行者"[0..4][0] != "guru"[0];
    assert Lower("小林在路上") == "小林在路上";
    assert !OccursAt("小林在路上", "guru", 0) && !OccursAt("小林在路上", "guru", 1);
    assert !p(THREADS[0]) && !p(THREADS[1]) && p(THREADS[2]);
    assert THREADS[2..][1..] == [];
    assert THREADS[1..][1..] == THREADS[2..];
  }
}
