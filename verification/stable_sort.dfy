/** A stable sort in descending order of a numeric key: what
    `Array.prototype.sort` does with a comparator `(a, b) => key(b) - key(a)`.
    Since the 2019 edition ECMA-262 requires the sort to be stable
    (section 23.1.3.30 of ECMA-262, 2023), so items whose keys are equal keep
    the order they had before sorting. */
module StableSort {
  import opened Seqs

  /** Every item's key is at least that of every later item. */
  ghost predicate Descending<T>(key: T -> real, s: seq<T>) {
    forall i, j :: 0 <= i < j < |s| ==> key(s[i]) >= key(s[j])
  }

  /** Accepts the items whose key is `k`. */
  function HasKey<T>(key: T -> real, k: real): T -> bool {
    x => key(x) == k
  }

  /** For every key value, the items carrying it appear in `r` in the same
      order as in `s`. */
  ghost predicate PreservesTies<T>(key: T -> real, s: seq<T>, r: seq<T>) {
    forall k :: Filter(HasKey(key, k), r) == Filter(HasKey(key, k), s)
  }

  /** Inserts `x` in front of the first item whose key does not exceed its own. */
  function Insert<T>(key: T -> real, x: T, s: seq<T>): (r: seq<T>)
    ensures multiset(r) == multiset(s) + multiset{x}
    ensures |r| == |s| + 1
    ensures r[0] == x || (|s| > 0 && r[0] == s[0])
  {
    if |s| == 0 || key(x) >= key(s[0]) then [x] + s
    else
      assert s == [s[0]] + s[1..];
      [s[0]] + Insert(key, x, s[1..])
  }

  /** Inserting into a descending list keeps it descending. */
  lemma {:induction false} InsertDescending<T>(key: T -> real, x: T, s: seq<T>)
    requires Descending(key, s)
    ensures Descending(key, Insert(key, x, s))
  {
    if |s| > 0 && key(x) < key(s[0]) {
      var t := Insert(key, x, s[1..]);
      InsertDescending(key, x, s[1..]);
      assert Insert(key, x, s) == [s[0]] + t;
      assert key(s[0]) >= key(t[0]);
      forall j | 0 < j < |t| + 1 ensures key(s[0]) >= key(([s[0]] + t)[j]) {
        assert key(t[0]) >= key(t[j - 1]);
      }
    }
  }

  /** Insertion sort: each item is inserted ahead of the items with equal key
      that follow it, which is what keeps the sort stable. */
  function Sort<T>(key: T -> real, s: seq<T>): (r: seq<T>)
    ensures multiset(r) == multiset(s)
    ensures |r| == |s|
    ensures Descending(key, r)
  {
    if |s| == 0 then []
    else
      assert s == [s[0]] + s[1..];
      InsertDescending(key, s[0], Sort(key, s[1..]));
      Insert(key, s[0], Sort(key, s[1..]))
  }

  lemma {:induction false} InsertTies<T>(key: T -> real, x: T, s: seq<T>, k: real)
    ensures Filter(HasKey(key, k), Insert(key, x, s)) == Filter(HasKey(key, k), [x] + s)
  {
    if |s| > 0 && key(x) < key(s[0]) {
      var t := Insert(key, x, s[1..]);
      InsertTies(key, x, s[1..], k);
      assert Insert(key, x, s) == [s[0]] + t;
      assert [s[0]] + s[1..] == s;
      PassTie(HasKey(key, k), x, s[0], s[1..], t);
    }
  }

  /** Moving `x` past `y` does not change a filter that keeps at most one of them. */
  lemma PassTie<T>(p: T -> bool, x: T, y: T, rest: seq<T>, t: seq<T>)
    requires !p(x) || !p(y)
    requires Filter(p, t) == Filter(p, [x] + rest)
    ensures Filter(p, [y] + t) == Filter(p, [x] + ([y] + rest))
  {
    var fx, fy, fr := Filter(p, [x]), Filter(p, [y]), Filter(p, rest);
    assert fx == [] || fy == [];
    calc {
      Filter(p, [y] + t);
      { FilterConcat(p, [y], t); }
      fy + Filter(p, t);
      { FilterConcat(p, [x], rest); }
      fy + (fx + fr);
      fx + (fy + fr);
      { FilterConcat(p, [y], rest); }
      fx + Filter(p, [y] + rest);
      { FilterConcat(p, [x], [y] + rest); }
      Filter(p, [x] + ([y] + rest));
    }
  }

  /** The sort reorders by key only: ties keep their input order. */
  lemma {:induction false} SortIsStable<T>(key: T -> real, s: seq<T>)
    ensures PreservesTies(key, s, Sort(key, s))
  {
    forall k ensures Filter(HasKey(key, k), Sort(key, s)) == Filter(HasKey(key, k), s) {
      SortTies(key, s, k);
    }
  }

  lemma {:induction false} SortTies<T>(key: T -> real, s: seq<T>, k: real)
    ensures Filter(HasKey(key, k), Sort(key, s)) == Filter(HasKey(key, k), s)
  {
    if |s| > 0 {
      var p := HasKey(key, k);
      var t := Sort(key, s[1..]);
      SortTies(key, s[1..], k);
      InsertTies(key, s[0], t, k);
      assert ([s[0]] + t)[1..] == t;
      assert s[1..] == s[1..];
    }
  }
}
