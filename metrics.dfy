/** The `/metrics` request handler, back/routers/vk_route.py:57-156
    (`get_group_metrics`): group lookup, owner derivation, `quick_range`
    resolution, the three collectors, the content-kind filter and the sort
    of the posts, and the response. */
module Metrics {
  import opened Wrappers
  import opened Remote
  import opened DateWindow
  import opened Collector
  import opened CollectorProps
  import opened VkData
  import opened ContentFilter
  import opened PostSort

  function Abs(n: int): nat
  {
    if n < 0 then -n else n
  }

  /** `-abs(group_id)`: a community owner id is never positive. */
  function OwnerOf(groupId: int): (owner: int)
    ensures owner <= 0
    ensures owner == groupId || owner == -groupId
  {
    -(Abs(groupId) as int)
  }

  /** Seconds per day. */
  const Day: int := 24 * 3600

  /** The length of a `quick_range` shortcut, if it is one. */
  function QuickSpan(quickRange: Option<string>): Option<int>
  {
    if quickRange == Some("week") then Some(7 * Day)
    else if quickRange == Some("month") then Some(30 * Day)
    else if quickRange == Some("year") then Some(365 * Day)
    else None
  }

  /** The window `get_group_metrics` collects in: a shortcut replaces both
      bounds by [now - span, now]; otherwise the caller's bounds stand. */
  function RangeWindow(dateFrom: Option<int>, dateTo: Option<int>, quickRange: Option<string>, now: int): Window
  {
    match QuickSpan(quickRange)
    case None => Window(dateFrom, dateTo)
    case Some(span) => Window(Some(now - span), Some(now))
  }

  /** The reassignment of `date_from` and `date_to` by `quick_range`. */
  method ResolveWindow(dateFrom: Option<int>, dateTo: Option<int>, quickRange: Option<string>, now: int)
    returns (w: Window)
    ensures w == RangeWindow(dateFrom, dateTo, quickRange, now)
  {
    var from, to := dateFrom, dateTo;
    if quickRange == Some("week") {
      from := Some(now - 7 * 24 * 3600);
      to := Some(now);
    } else if quickRange == Some("month") {
      from := Some(now - 30 * 24 * 3600);
      to := Some(now);
    } else if quickRange == Some("year") {
      from := Some(now - 365 * 24 * 3600);
      to := Some(now);
    }
    w := Window(from, to);
  }

  /** Under a shortcut (and a clock past its span) an item is kept exactly
      when it dates from the last 7, 30 or 365 days up to now; the caller's
      bounds play no part. */
  lemma QuickRangeKeeps(dateFrom: Option<int>, dateTo: Option<int>, quickRange: Option<string>, now: int, x: Item)
    requires QuickSpan(quickRange).Some? && now > QuickSpan(quickRange).value
    ensures InWindow(RangeWindow(dateFrom, dateTo, quickRange, now), x) <==>
      now - QuickSpan(quickRange).value <= DateOf(x) <= now
    ensures quickRange == Some("week") ==> QuickSpan(quickRange) == Some(604800)
    ensures quickRange == Some("month") ==> QuickSpan(quickRange) == Some(2592000)
    ensures quickRange == Some("year") ==> QuickSpan(quickRange) == Some(31536000)
  {
  }

  /** `if filters:` the parameter is present and not empty. */
  predicate FiltersGiven(filters: Option<string>)
  {
    filters.Some? && filters.value != []
  }

  /** The posts of the response: kind-filtered when filters are given, then
      sorted. */
  function PostStage(posts: seq<Item>, filters: Option<string>, sortBy: Option<string>): seq<Item>
  {
    SortPosts(if FiltersGiven(filters) then KindFilter(posts, ParseFilters(filters.value)) else posts, sortBy)
  }

  /** The response posts are a permutation of the (filtered) posts, in
      non-increasing key order, stable among equal keys; every one of them is
      a collected post that passes the filter; without filters nothing is
      dropped. */
  lemma PostStageFacts(posts: seq<Item>, filters: Option<string>, sortBy: Option<string>)
    ensures var kept := if FiltersGiven(filters) then KindFilter(posts, ParseFilters(filters.value)) else posts;
      multiset(PostStage(posts, filters, sortBy)) == multiset(kept) &&
      Descending(PostStage(posts, filters, sortBy), sortBy) &&
      (forall v :: WithKey(PostStage(posts, filters, sortBy), sortBy, v) == WithKey(kept, sortBy, v))
    ensures forall x :: x in PostStage(posts, filters, sortBy) ==>
      x in posts && (FiltersGiven(filters) ==> Keeps(ParseFilters(filters.value), x))
    ensures !FiltersGiven(filters) ==> multiset(PostStage(posts, filters, sortBy)) == multiset(posts)
  {
    var kept := if FiltersGiven(filters) then KindFilter(posts, ParseFilters(filters.value)) else posts;
    SortPostsSorted(kept, sortBy);
    forall v ensures WithKey(PostStage(posts, filters, sortBy), sortBy, v) == WithKey(kept, sortBy, v) {
      SortPostsStable(kept, sortBy, v);
    }
    forall x | x in PostStage(posts, filters, sortBy)
      ensures x in posts && (FiltersGiven(filters) ==> Keeps(ParseFilters(filters.value), x))
    {
      assert x in multiset(kept);
    }
  }

  /** The body of a successful response: exactly the four keys. */
  datatype MetricsBody = MetricsBody(groupInfo: GroupInfo, posts: seq<Item>, photos: seq<Item>, videos: seq<Item>)

  /** The outcome of a request: the body, the 404 of an unknown group (its
      detail names the group), or an exception that propagates. */
  datatype Response = Body(body: MetricsBody) | NotFound404(detail: string) | Raised(message: string)

  /** `get_group_metrics`.  An unknown group is a 404 before any collection;
      otherwise posts, then photos, then videos are collected in the resolved
      window of the owner `-abs(id)`, the posts are filtered and sorted, and
      photos and videos are returned as collected. */
  method GetGroupMetrics(api: Api, groupName: string, dateFrom: Option<int>, dateTo: Option<int>,
                         quickRange: Option<string>, sortBy: Option<string>, filters: Option<string>, now: int)
    returns (resp: Response, calls: seq<Call>)
    ensures |calls| >= 1 && calls[0] == LookupGroup(groupName)
    ensures resp.NotFound404? <==> api.groupsById(groupName) == Groups([])
    ensures resp.NotFound404? ==> resp.detail == groupName && calls == [LookupGroup(groupName)]
    ensures api.groupsById(groupName).GroupsFailed? ==>
      resp == Raised(api.groupsById(groupName).message) && calls == [LookupGroup(groupName)]
    ensures GetGroupInfo(api, groupName).Ok? ==>
      var g := GetGroupInfo(api, groupName).value;
      var w := RangeWindow(dateFrom, dateTo, quickRange, now);
      var posts := RunFrom(api, PostsPolicy, OwnerOf(g.id), w, 0);
      var photos := RunFrom(api, PhotosPolicy, OwnerOf(g.id), w, 0);
      var videos := RunFrom(api, VideosPolicy, OwnerOf(g.id), w, 0);
      (posts.result.Err? ==>
        resp == Raised(posts.result.error) && calls == [LookupGroup(groupName)] + posts.calls) &&
      (posts.result.Ok? && photos.result.Err? ==>
        resp == Raised(photos.result.error) && calls == [LookupGroup(groupName)] + posts.calls + photos.calls) &&
      (posts.result.Ok? && photos.result.Ok? ==>
        resp.Body? && resp.body.groupInfo == g &&
        resp.body.posts == PostStage(posts.result.value, filters, sortBy) &&
        Ok(resp.body.photos) == photos.result && Ok(resp.body.videos) == videos.result &&
        calls == [LookupGroup(groupName)] + posts.calls + photos.calls + videos.calls)
    ensures resp.Body? ==> Descending(resp.body.posts, sortBy)
    ensures resp.Body? ==> forall x :: x in resp.body.posts ==>
      InWindow(RangeWindow(dateFrom, dateTo, quickRange, now), x) &&
      (FiltersGiven(filters) ==> Keeps(ParseFilters(filters.value), x))
  {
    calls := [LookupGroup(groupName)];
    var info := GetGroupInfo(api, groupName);
    if info.Err? {
      match info.error {
        case NotFound(name) => resp := NotFound404(name);
        case LookupFailed(msg) => resp := Raised(msg);
      }
      return;
    }
    var group := info.value;
    var owner := OwnerOf(group.id);
    var w := ResolveWindow(dateFrom, dateTo, quickRange, now);

    var posts, postCalls := GetPostsData(api, owner, w);
    calls := calls + postCalls;
    if posts.Err? {
      resp := Raised(posts.error);
      return;
    }
    var allPosts := posts.value;
    if filters.Some? && filters.value != [] {
      var chosen := ParseFilters(filters.value);
      allPosts := FilterPosts(allPosts, chosen);
    }
    allPosts := SortPosts(allPosts, sortBy);
    PostStageFacts(posts.value, filters, sortBy);

    var photos, photoCalls := GetPhotosData(api, owner, w);
    calls := calls + photoCalls;
    if photos.Err? {
      resp := Raised(photos.error);
      return;
    }
    var videos, videoCalls := GetVideosData(api, owner, w);
    calls := calls + videoCalls;
    resp := Body(MetricsBody(group, allPosts, photos.value, videos));
  }
}
