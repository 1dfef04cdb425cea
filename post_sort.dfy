/** The ordering stage of back/routers/vk_route.py:130-143: `sort_key`
    picks a counter of the attached reach statistics by metric name (or the
    date), and `sorted(..., key=sort_key, reverse=True)` orders the posts by
    it, newest or largest first, keeping the input order among equal keys. */
module PostSort {
  import opened Wrappers
  import opened Remote
  import opened DateWindow

  /** The statistics counter a metric name selects; `None` selects the date. */
  function CounterFor(sortBy: Option<string>): Option<string>
  {
    if sortBy == Some("likes") then Some("reach_subscribers")
    else if sortBy == Some("reposts") then Some("links")
    else if sortBy == Some("comments") then Some("report")
    else if sortBy == Some("views") then Some("reach_total")
    else None
  }

  /** A counter of the attached statistics; 0 when no statistics are
      attached, when the counter is absent, or for an error placeholder,
      which has only its `error` key. */
  function Counter(reach: Option<Reach>, name: string): int
  {
    match reach
    case None => 0
    case Some(Counters(m)) => if name in m then m[name] else 0
    case Some(ErrorNote(_)) => 0
  }

  /** `sort_key` */
  function SortKey(x: Item, sortBy: Option<string>): int
  {
    match CounterFor(sortBy)
    case None => DateOf(x)
    case Some(c) => Counter(x.reach, c)
  }

  /** What each metric name sorts by, and that a missing counter counts 0. */
  lemma SortKeyMeaning(x: Item, sortBy: Option<string>)
    ensures sortBy == Some("likes") ==> SortKey(x, sortBy) == Counter(x.reach, "reach_subscribers")
    ensures sortBy == Some("reposts") ==> SortKey(x, sortBy) == Counter(x.reach, "links")
    ensures sortBy == Some("comments") ==> SortKey(x, sortBy) == Counter(x.reach, "report")
    ensures sortBy == Some("views") ==> SortKey(x, sortBy) == Counter(x.reach, "reach_total")
    ensures sortBy !in {Some("likes"), Some("reposts"), Some("comments"), Some("views")} ==>
      SortKey(x, sortBy) == x.date.GetOr(0)
    ensures CounterFor(sortBy).Some? ==>
      (x.reach.None? || x.reach.value.ErrorNote? || CounterFor(sortBy).value !in x.reach.value.values) ==>
      SortKey(x, sortBy) == 0
  {
  }

  /** Keys never increase along `s`. */
  predicate Descending(s: seq<Item>, sortBy: Option<string>)
  {
    forall i, j :: 0 <= i < j < |s| ==> SortKey(s[i], sortBy) >= SortKey(s[j], sortBy)
  }

  /** Places `x` in front of the first post whose key is not larger. */
  function Insert(x: Item, t: seq<Item>, sortBy: Option<string>): seq<Item>
    decreases |t|
  {
    if t == [] || SortKey(t[0], sortBy) <= SortKey(x, sortBy) then [x] + t
    else [t[0]] + Insert(x, t[1..], sortBy)
  }

  /** `sorted(posts, key=sort_key, reverse=True)` */
  function SortPosts(s: seq<Item>, sortBy: Option<string>): seq<Item>
    decreases |s|
  {
    if s == [] then [] else Insert(s[0], SortPosts(s[1..], sortBy), sortBy)
  }

  /** Insertion adds `x` and loses nothing. */
  lemma {:induction false} InsertPerm(x: Item, t: seq<Item>, sortBy: Option<string>)
    ensures multiset(Insert(x, t, sortBy)) == multiset(t) + multiset{x}
    decreases |t|
  {
    if t != [] && SortKey(t[0], sortBy) > SortKey(x, sortBy) {
      InsertPerm(x, t[1..], sortBy);
      assert t == [t[0]] + t[1..];
    }
  }

  /** Insertion into a descending list keeps it descending. */
  lemma {:induction false} InsertSorted(x: Item, t: seq<Item>, sortBy: Option<string>)
    requires Descending(t, sortBy)
    ensures Descending(Insert(x, t, sortBy), sortBy)
    decreases |t|
  {
    if t != [] && SortKey(t[0], sortBy) > SortKey(x, sortBy) {
      var rest := Insert(x, t[1..], sortBy);
      InsertSorted(x, t[1..], sortBy);
      assert rest[0] == x || rest[0] == t[1];
      DescendingCons(t[0], rest, sortBy);
    }
  }

  /** A post in front of a descending list whose head's key is not larger. */
  lemma DescendingCons(y: Item, s: seq<Item>, sortBy: Option<string>)
    requires Descending(s, sortBy)
    requires s != [] ==> SortKey(y, sortBy) >= SortKey(s[0], sortBy)
    ensures Descending([y] + s, sortBy)
  {
    var r := [y] + s;
    forall i, j | 0 <= i < j < |r| ensures SortKey(r[i], sortBy) >= SortKey(r[j], sortBy) {
      assert r[j] == s[j - 1];
      if i > 0 {
        assert r[i] == s[i - 1];
      } else if j > 1 {
        assert SortKey(s[0], sortBy) >= SortKey(s[j - 1], sortBy);
      }
    }
  }

  lemma InsertFacts(x: Item, t: seq<Item>, sortBy: Option<string>)
    requires Descending(t, sortBy)
    ensures multiset(Insert(x, t, sortBy)) == multiset(t) + multiset{x}
    ensures Descending(Insert(x, t, sortBy), sortBy)
  {
    InsertPerm(x, t, sortBy);
    InsertSorted(x, t, sortBy);
  }

  /** The sorted posts are a permutation of the input in non-increasing key
      order. */
  lemma {:induction false} SortPostsSorted(s: seq<Item>, sortBy: Option<string>)
    ensures multiset(SortPosts(s, sortBy)) == multiset(s)
    ensures Descending(SortPosts(s, sortBy), sortBy)
    decreases |s|
  {
    if s != [] {
      SortPostsSorted(s[1..], sortBy);
      InsertFacts(s[0], SortPosts(s[1..], sortBy), sortBy);
      assert s == [s[0]] + s[1..];
    }
  }

  /** The posts of `s` whose key is `v`, in order. */
  function WithKey(s: seq<Item>, sortBy: Option<string>, v: int): seq<Item>
    decreases |s|
  {
    if s == [] then [] else (if SortKey(s[0], sortBy) == v then [s[0]] else []) + WithKey(s[1..], sortBy, v)
  }

  lemma {:induction false} InsertWithKey(x: Item, t: seq<Item>, sortBy: Option<string>, v: int)
    requires Descending(t, sortBy)
    ensures WithKey(Insert(x, t, sortBy), sortBy, v) == (if SortKey(x, sortBy) == v then [x] else []) + WithKey(t, sortBy, v)
    decreases |t|
  {
    if t == [] || SortKey(t[0], sortBy) <= SortKey(x, sortBy) {
      assert ([x] + t)[1..] == t;
    } else {
      InsertWithKey(x, t[1..], sortBy, v);
      assert ([t[0]] + Insert(x, t[1..], sortBy))[1..] == Insert(x, t[1..], sortBy);
      if SortKey(x, sortBy) == v {
        assert SortKey(t[0], sortBy) != v;
      }
    }
  }

  /** Stability: among posts with equal keys the input order is kept. */
  lemma {:induction false} SortPostsStable(s: seq<Item>, sortBy: Option<string>, v: int)
    ensures WithKey(SortPosts(s, sortBy), sortBy, v) == WithKey(s, sortBy, v)
    decreases |s|
  {
    if s != [] {
      SortPostsStable(s[1..], sortBy, v);
      SortPostsSorted(s[1..], sortBy);
      InsertWithKey(s[0], SortPosts(s[1..], sortBy), sortBy, v);
    }
  }
}
