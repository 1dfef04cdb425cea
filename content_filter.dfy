/** The content-kind filter of back/routers/vk_route.py:105-125: the
    comma-separated `filters` parameter is split, each token stripped and
    lowercased, and a post is kept when any requested kind matches it. */
module ContentFilter {
  import opened Wrappers
  import opened Remote
  import opened Seqs

  // ---------------------------------------------------------------------
  // `str.split(",")`

  /** The comma-separated fields of `s`, as `s.split(",")` gives them: one
      more field than there are commas, empty fields included. */
  function Split(s: string): (r: seq<string>)
    ensures |r| >= 1
    ensures forall i :: 0 <= i < |r| ==> ',' !in r[i]
    decreases |s|
  {
    if s == [] then [[]] else
      var rest := Split(s[1..]);
      if s[0] == ',' then [[]] + rest else [[s[0]] + rest[0]] + rest[1..]
  }

  /** `",".join(ts)` */
  function Join(ts: seq<string>): string
    requires |ts| >= 1
    decreases |ts|
  {
    if |ts| == 1 then ts[0] else ts[0] + "," + Join(ts[1..])
  }

  /** Splitting loses nothing: joining the fields with commas gives back the
      parameter. */
  lemma {:induction false} JoinSplit(s: string)
    ensures Join(Split(s)) == s
    decreases |s|
  {
    if s != [] {
      var rest := Split(s[1..]);
      JoinSplit(s[1..]);
      if s[0] == ',' {
        assert Split(s) == [[]] + rest;
        assert s == [] + "," + s[1..];
      } else {
        var r := Split(s);
        assert r == [[s[0]] + rest[0]] + rest[1..];
        if |rest| == 1 {
          assert s == [s[0]] + s[1..];
        } else {
          assert rest == [rest[0]] + rest[1..];
          assert Join(rest) == rest[0] + "," + Join(rest[1..]);
          assert r[1..] == rest[1..];
          assert s == [s[0]] + rest[0] + "," + Join(rest[1..]);
        }
      }
    }
  }

  /** Fields without commas survive a join and a split unchanged. */
  lemma {:induction false} SplitJoin(ts: seq<string>)
    requires |ts| >= 1
    requires forall i :: 0 <= i < |ts| ==> ',' !in ts[i]
    ensures Split(Join(ts)) == ts
    decreases |ts|
  {
    if |ts| == 1 {
      SplitPlain(ts[0]);
    } else {
      SplitJoin(ts[1..]);
      var tail := "," + Join(ts[1..]);
      SplitPrefix(ts[0], tail);
      assert tail[1..] == Join(ts[1..]);
      assert Split(tail) == [[]] + Split(Join(ts[1..]));
      assert ts[0] + "," + Join(ts[1..]) == ts[0] + tail;
      assert ts[0] + [] == ts[0];
      assert ts == [ts[0]] + ts[1..];
    }
  }

  lemma {:induction false} SplitPlain(t: string)
    requires ',' !in t
    ensures Split(t) == [t]
    decreases |t|
  {
    if t != [] {
      assert ',' !in t[1..] by {
        forall i | 0 <= i < |t[1..]| ensures t[1..][i] != ',' {
          assert t[1..][i] == t[i + 1];
        }
      }
      SplitPlain(t[1..]);
      assert t == [t[0]] + t[1..];
    }
  }

  /** A comma-free prefix joins the first field. */
  lemma {:induction false} SplitPrefix(t: string, u: string)
    requires ',' !in t
    ensures Split(t + u) == [t + Split(u)[0]] + Split(u)[1..]
    decreases |t|
  {
    if t == [] {
      assert t + u == u;
      assert t + Split(u)[0] == Split(u)[0];
      assert Split(u) == [Split(u)[0]] + Split(u)[1..];
    } else {
      assert ',' !in t[1..] by {
        forall i | 0 <= i < |t[1..]| ensures t[1..][i] != ',' {
          assert t[1..][i] == t[i + 1];
        }
      }
      SplitPrefix(t[1..], u);
      assert (t + u)[0] == t[0];
      assert (t + u)[1..] == t[1..] + u;
      assert [t[0]] + (t[1..] + Split(u)[0]) == t + Split(u)[0];
    }
  }

  // ---------------------------------------------------------------------
  // `str.strip()` and `str.lower()`

  /** The characters `str.isspace` accepts, which `str.strip()` removes. */
  predicate IsSpace(c: char)
  {
    ('\t' <= c <= '\r') || ('\U{1c}' <= c <= ' ') || c == '\U{85}' || c == '\U{a0}' ||
    c == '\U{1680}' || ('\U{2000}' <= c <= '\U{200a}') || c == '\U{2028}' || c == '\U{2029}' ||
    c == '\U{202f}' || c == '\U{205f}' || c == '\U{3000}'
  }

  /** The index of the first non-whitespace character at or after `i`
      (|s| when there is none). */
  function StartFrom(s: string, i: nat): (j: nat)
    requires i <= |s|
    ensures i <= j <= |s|
    ensures forall k :: i <= k < j ==> IsSpace(s[k])
    ensures j < |s| ==> !IsSpace(s[j])
    decreases |s| - i
  {
    if i < |s| && IsSpace(s[i]) then StartFrom(s, i + 1) else i
  }

  /** The index just past the last non-whitespace character before `j` and
      at or after `lo` (`lo` when there is none). */
  function EndFrom(s: string, lo: nat, j: nat): (e: nat)
    requires lo <= j <= |s|
    ensures lo <= e <= j
    ensures forall k :: e <= k < j ==> IsSpace(s[k])
    ensures e > lo ==> !IsSpace(s[e - 1])
    decreases j
  {
    if j > lo && IsSpace(s[j - 1]) then EndFrom(s, lo, j - 1) else j
  }

  /** `s.strip()`: the slice s[i..e] whose outside is whitespace and whose
      ends are not; it is empty exactly when `s` is all whitespace. */
  function Strip(s: string): (r: string)
    ensures r == [] <==> forall k :: 0 <= k < |s| ==> IsSpace(s[k])
    ensures r != [] ==> !IsSpace(r[0]) && !IsSpace(r[|r| - 1])
  {
    var i := StartFrom(s, 0);
    var e := EndFrom(s, i, |s|);
    assert i < |s| ==> e > i;
    s[i..e]
  }

  /** The converse: any slice s[i..j] whose outside is whitespace and whose
      ends are not whitespace is what `strip` returns. */
  lemma StripUnique(s: string, i: nat, j: nat)
    requires i < j <= |s|
    requires forall k :: 0 <= k < i ==> IsSpace(s[k])
    requires forall k :: j <= k < |s| ==> IsSpace(s[k])
    requires !IsSpace(s[i]) && !IsSpace(s[j - 1])
    ensures Strip(s) == s[i..j]
  {
    StartAt(s, 0, i);
    EndAt(s, i, |s|, j);
  }

  lemma {:induction false} StartAt(s: string, k: nat, i: nat)
    requires k <= i < |s|
    requires forall m :: k <= m < i ==> IsSpace(s[m])
    requires !IsSpace(s[i])
    ensures StartFrom(s, k) == i
    decreases i - k
  {
    if k < i {
      StartAt(s, k + 1, i);
    }
  }

  lemma {:induction false} EndAt(s: string, lo: nat, j: nat, e: nat)
    requires lo < e <= j <= |s|
    requires forall m :: e <= m < j ==> IsSpace(s[m])
    requires !IsSpace(s[e - 1])
    ensures EndFrom(s, lo, j) == e
    decreases j
  {
    if e < j {
      EndAt(s, lo, j - 1, e);
    }
  }

  /** Stripping twice is stripping once. */
  lemma StripIdempotent(s: string)
    ensures Strip(Strip(s)) == Strip(s)
  {
    var r := Strip(s);
    if r != [] {
      StripUnique(r, 0, |r|);
      assert r[0..|r|] == r;
    }
  }

  /** Whitespace around a token never matters. */
  lemma StripPadded(a: string, t: string, b: string)
    requires forall k :: 0 <= k < |a| ==> IsSpace(a[k])
    requires forall k :: 0 <= k < |b| ==> IsSpace(b[k])
    requires t != [] && !IsSpace(t[0]) && !IsSpace(t[|t| - 1])
    ensures Strip(a + t + b) == t
  {
    var s := a + t + b;
    forall k | |a| + |t| <= k < |s| ensures IsSpace(s[k]) {
      assert s[k] == b[k - |a| - |t|];
    }
    StripUnique(s, |a|, |a| + |t|);
    assert s[|a|..|a| + |t|] == t;
  }

  /** `c.lower()` for the ASCII letters; every other character is kept. */
  function LowerChar(c: char): char
  {
    if 'A' <= c <= 'Z' then (c as int + 32) as char else c
  }

  /** `s.lower()`: no ASCII capital is left, and nothing else changes. */
  function Lower(s: string): (r: string)
    ensures |r| == |s|
    ensures forall i :: 0 <= i < |r| ==> !('A' <= r[i] <= 'Z')
    ensures forall i :: 0 <= i < |s| && !('A' <= s[i] <= 'Z') ==> r[i] == s[i]
  {
    seq(|s|, i requires 0 <= i < |s| => LowerChar(s[i]))
  }

  /** Lowercasing twice is lowercasing once. */
  lemma LowerIdempotent(s: string)
    ensures Lower(Lower(s)) == Lower(s)
  {
  }

  // ---------------------------------------------------------------------
  // The filter

  /** `[f.strip().lower() for f in filters.split(",")]` */
  function ParseFilters(filters: string): (r: seq<string>)
    ensures |r| == |Split(filters)|
    ensures forall i :: 0 <= i < |r| ==> r[i] == Lower(Strip(Split(filters)[i]))
  {
    seq(|Split(filters)|, i requires 0 <= i < |Split(filters)| => Lower(Strip(Split(filters)[i])))
  }

  /** A token that is already clean: lowercase, no surrounding whitespace,
      no comma. */
  predicate Clean(t: string)
  {
    ',' !in t && Strip(t) == t && Lower(t) == t
  }

  /** Parsing a comma-joined list of clean tokens gives the tokens back. */
  lemma ParseJoined(ts: seq<string>)
    requires |ts| >= 1
    requires forall i :: 0 <= i < |ts| ==> Clean(ts[i])
    ensures ParseFilters(Join(ts)) == ts
  {
    SplitJoin(ts);
  }

  /** Some attachment of the post has this `type`. */
  predicate HasKind(atts: seq<Attachment>, kind: string)
  {
    exists i :: 0 <= i < |atts| && atts[i].kind == Some(kind)
  }

  /** The keep test: text requested and the stripped text is not empty, or
      photo requested and some attachment is a photo, or video requested and
      some attachment is a video. */
  predicate Keeps(chosen: seq<string>, x: Item)
  {
    ("text" in chosen && Strip(x.text) != []) ||
    ("photo" in chosen && HasKind(x.attachments, "photo")) ||
    ("video" in chosen && HasKind(x.attachments, "video"))
  }

  /** The posts the filter keeps, in their order. */
  function KindFilter(posts: seq<Item>, chosen: seq<string>): (r: seq<Item>)
    ensures forall x :: x in r <==> x in posts && Keeps(chosen, x)
    ensures |r| <= |posts|
    decreases |posts|
  {
    if posts == [] then [] else
      var init := posts[..|posts| - 1];
      var last := posts[|posts| - 1];
      assert posts == init + [last];
      assert forall x :: x in posts <==> x in init || x == last;
      KindFilter(init, chosen) + if Keeps(chosen, last) then [last] else []
  }

  /** The filter keeps the input order: its result is a subsequence. */
  lemma {:induction false} KindFilterSubseq(posts: seq<Item>, chosen: seq<string>)
    ensures IsSubseq(KindFilter(posts, chosen), posts)
    decreases |posts|
  {
    if posts != [] {
      var init := posts[..|posts| - 1];
      var last := posts[|posts| - 1];
      KindFilterSubseq(init, chosen);
      assert posts == init + [last];
      if Keeps(chosen, last) {
        SubseqAppend(KindFilter(init, chosen), init, last);
      } else {
        var kept := KindFilter(init, chosen);
        assert KindFilter(posts, chosen) == kept + [] == kept;
        SubseqExtend(kept, init, [last]);
        assert IsSubseq(kept, posts);
      }
    }
  }

  /** A filter naming no known kind keeps nothing. */
  lemma {:induction false} UnknownKindsKeepNothing(posts: seq<Item>, chosen: seq<string>)
    requires "text" !in chosen && "photo" !in chosen && "video" !in chosen
    ensures KindFilter(posts, chosen) == []
    decreases |posts|
  {
    if posts != [] {
      UnknownKindsKeepNothing(posts[..|posts| - 1], chosen);
    }
  }

  /** The attachment scan: `photo_ok` and `video_ok` are set when some
      attachment has that type. */
  method ScanAttachments(atts: seq<Attachment>) returns (photoOk: bool, videoOk: bool)
    ensures photoOk <==> HasKind(atts, "photo")
    ensures videoOk <==> HasKind(atts, "video")
  {
    photoOk, videoOk := false, false;
    for i := 0 to |atts|
      invariant photoOk <==> HasKind(atts[..i], "photo")
      invariant videoOk <==> HasKind(atts[..i], "video")
    {
      assert forall j :: 0 <= j < i ==> atts[..i + 1][j] == atts[..i][j];
      assert atts[..i + 1][i] == atts[i];
      if atts[i].kind == Some("photo") {
        photoOk := true;
      } else if atts[i].kind == Some("video") {
        videoOk := true;
      }
    }
    assert atts[..|atts|] == atts;
  }

  /** The `filtered_posts` loop. */
  method FilterPosts(posts: seq<Item>, chosen: seq<string>) returns (filtered: seq<Item>)
    ensures filtered == KindFilter(posts, chosen)
  {
    filtered := [];
    for i := 0 to |posts|
      invariant filtered == KindFilter(posts[..i], chosen)
    {
      var p := posts[i];
      assert posts[..i + 1][..i] == posts[..i];
      var textOk := "text" in chosen && Strip(p.text) != [];
      var photoOk, videoOk := ScanAttachments(p.attachments);
      if textOk || ("photo" in chosen && photoOk) || ("video" in chosen && videoOk) {
        filtered := filtered + [p];
      }
    }
    assert posts[..|posts|] == posts;
  }
}
