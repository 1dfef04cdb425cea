/** The inclusive date window every collector in back/services/vk_data.py
    applies to each fetched item. */
module DateWindow {
  import opened Wrappers
  import opened Remote
  import opened Seqs

  /** Optional inclusive bounds `date_from` and `date_to` (unix seconds). */
  datatype Window = Window(from: Option<int>, to: Option<int>)

  /** No bound on either side. */
  const Unbounded := Window(None, None)

  /** A bound is in force only when it is truthy: present and non-zero. */
  predicate Truthy(b: Option<int>)
  {
    b.Some? && b.value != 0
  }

  /** The item's date, 0 when the reply has no `date` key. */
  function DateOf(x: Item): int
  {
    x.date.GetOr(0)
  }

  /** The keep test: not newer than a truthy `date_to`, not older than a
      truthy `date_from`. */
  predicate InWindow(w: Window, x: Item)
  {
    !(Truthy(w.to) && DateOf(x) > w.to.value) && !(Truthy(w.from) && DateOf(x) < w.from.value)
  }

  /** The items of `s` that lie in the window, in their order. */
  function FilterWindow(s: seq<Item>, w: Window): (r: seq<Item>)
    ensures forall x :: x in r <==> x in s && InWindow(w, x)
    ensures |r| <= |s|
  {
    if s == [] then [] else
      var rest := FilterWindow(s[1..], w);
      assert forall x :: x in s <==> x == s[0] || x in s[1..];
      if InWindow(w, s[0]) then [s[0]] + rest else rest
  }

  /** Filtering distributes over concatenation: filtering page by page and
      concatenating is filtering everything fetched. */
  lemma {:induction false} FilterWindowConcat(a: seq<Item>, b: seq<Item>, w: Window)
    ensures FilterWindow(a + b, w) == FilterWindow(a, w) + FilterWindow(b, w)
    decreases |a|
  {
    if a != [] {
      assert (a + b)[0] == a[0];
      assert (a + b)[1..] == a[1..] + b;
      FilterWindowConcat(a[1..], b, w);
    } else {
      assert a + b == b;
    }
  }

  /** The window filter keeps the input order: its result is a subsequence. */
  lemma {:induction false} FilterWindowSubseq(s: seq<Item>, w: Window)
    ensures IsSubseq(FilterWindow(s, w), s)
    decreases |s|
  {
    if s != [] {
      FilterWindowSubseq(s[1..], w);
      if InWindow(w, s[0]) {
        assert ([s[0]] + FilterWindow(s[1..], w))[1..] == FilterWindow(s[1..], w);
      }
    }
  }

  /** Without truthy bounds nothing is dropped. */
  lemma {:induction false} FilterUnbounded(s: seq<Item>, w: Window)
    requires !Truthy(w.from) && !Truthy(w.to)
    ensures FilterWindow(s, w) == s
    decreases |s|
  {
    if s != [] {
      FilterUnbounded(s[1..], w);
      assert s == [s[0]] + s[1..];
    }
  }

  /** Items all older than a truthy `date_from` are all dropped. */
  lemma {:induction false} FilterAllOlder(s: seq<Item>, w: Window)
    requires Truthy(w.from)
    requires forall i :: 0 <= i < |s| ==> DateOf(s[i]) < w.from.value
    ensures FilterWindow(s, w) == []
    decreases |s|
  {
    if s != [] {
      assert DateOf(s[0]) < w.from.value;
      FilterAllOlder(s[1..], w);
    }
  }

  /** The `filtered_batch` loop over one page. */
  method FilterBatch(items: seq<Item>, w: Window) returns (batch: seq<Item>)
    ensures batch == FilterWindow(items, w)
  {
    batch := [];
    var i := 0;
    while i < |items|
      invariant 0 <= i <= |items|
      invariant batch == FilterWindow(items[..i], w)
    {
      var p := items[i];
      assert items[..i + 1] == items[..i] + [p];
      FilterWindowConcat(items[..i], [p], w);
      var d := DateOf(p);
      if Truthy(w.to) && d > w.to.value {
        // too new: skipped
      } else if Truthy(w.from) && d < w.from.value {
        // too old: skipped, the rest of the page is still examined
      } else {
        batch := batch + [p];
      }
      i := i + 1;
    }
    assert items[..|items|] == items;
  }
}
