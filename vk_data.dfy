/** The data service of the backend, back/services/vk_data.py: the group
    lookup and the three date-windowed collectors, each an instance of the
    generic paginated loop of `Collector`. */
module VkData {
  import opened Wrappers
  import opened Remote
  import opened Seqs
  import opened DateWindow
  import opened Enrichment
  import opened Collector
  import opened CollectorProps

  /** `get_posts_data`: wall pages, enriched with reach statistics (a failed
      chunk becomes `{}` per id), empty page stops, fetch errors propagate. */
  const PostsPolicy := Policy(Wall, ReachOr(EmptyCounters), false, true)

  /** `get_photos_data`: no enrichment, empty page stops, fetch errors
      propagate. */
  const PhotosPolicy := Policy(Photos, NoReach, false, true)

  /** `get_videos_data`: no enrichment, empty page stops, a fetch error ends
      the loop with what was gathered. */
  const VideosPolicy := Policy(Videos, NoReach, true, true)

  /** Why the lookup produced no group: the name does not resolve (the
      `ValueError`), or the lookup call itself failed. */
  datatype LookupError = NotFound(name: string) | LookupFailed(message: string)

  /** `get_group_info`: the first group the lookup returns; an empty reply
      is the not-found error. */
  function GetGroupInfo(api: Api, groupName: string): (r: Result<GroupInfo, LookupError>)
    ensures r.Ok? <==> api.groupsById(groupName).Groups? && |api.groupsById(groupName).groups| > 0
    ensures r.Ok? ==> r.value == api.groupsById(groupName).groups[0]
    ensures r == Err(NotFound(groupName)) <==> api.groupsById(groupName) == Groups([])
    ensures r.Err? && r.error.LookupFailed? <==> api.groupsById(groupName).GroupsFailed?
  {
    match api.groupsById(groupName)
    case GroupsFailed(msg) => Err(LookupFailed(msg))
    case Groups(gs) => if gs == [] then Err(NotFound(groupName)) else Ok(gs[0])
  }

  /** `get_posts_data`.  Every returned post lies in the window; the result
      is the window filter of the fetched (enriched) posts in fetch order;
      pages are requested at offsets 0, 100, ... with one pause per advance;
      the statistics requests cover the ids of every fetched post; an error
      is the reply to the last page request, and a page answered with an
      error, once reached, fails the whole call. */
  method GetPostsData(api: Api, owner: int, w: Window) returns (r: Result<seq<Item>, string>, calls: seq<Call>)
    ensures Run(r, calls) == RunFrom(api, PostsPolicy, owner, w, 0)
    ensures r.Ok? ==> forall x :: x in r.value ==> InWindow(w, x)
    ensures r.Ok? ==> r.value == FilterWindow(Gather(api, PostsPolicy, owner, w, 0, true), w)
    ensures Scheduled(calls, 0, |PagesOf(api, Wall, owner)| + 1)
    ensures ReachIds(calls) == Ids(Gather(api, PostsPolicy, owner, w, 0, true))
    ensures r.Err? ==>
      |calls| > 0 && calls[|calls| - 1].FetchPage? && calls[|calls| - 1].offset >= 0 &&
      FetchAt(api, Wall, owner, calls[|calls| - 1].offset) == PageError(r.error)
    ensures forall j: nat :: ReachesError(api, PostsPolicy, owner, w, j) ==>
      r == Err(FetchAt(api, Wall, owner, j * PageSize).message)
  {
    r, calls := CollectPages(api, PostsPolicy, owner, w);
    ErrorsPropagate(api, PostsPolicy, owner, w);
    RunIsFilterOfFetched(api, PostsPolicy, owner, w, 0);
    FetchSchedule(api, PostsPolicy, owner, w);
    ReachCoverage(api, PostsPolicy, owner, w);
    FetchErrors(api, PostsPolicy, owner, w);
  }

  /** `get_photos_data`: the same loop without enrichment; a page answered
      with an error, once reached, fails the whole call. */
  method GetPhotosData(api: Api, owner: int, w: Window) returns (r: Result<seq<Item>, string>, calls: seq<Call>)
    ensures Run(r, calls) == RunFrom(api, PhotosPolicy, owner, w, 0)
    ensures r.Ok? ==> forall x :: x in r.value ==> InWindow(w, x)
    ensures r.Ok? ==> r.value == FilterWindow(Gather(api, PhotosPolicy, owner, w, 0, true), w)
    ensures Scheduled(calls, 0, |PagesOf(api, Photos, owner)| + 1)
    ensures ReachIds(calls) == []
    ensures r.Err? ==>
      |calls| > 0 && calls[|calls| - 1].FetchPage? && calls[|calls| - 1].offset >= 0 &&
      FetchAt(api, Photos, owner, calls[|calls| - 1].offset) == PageError(r.error)
    ensures forall j: nat :: ReachesError(api, PhotosPolicy, owner, w, j) ==>
      r == Err(FetchAt(api, Photos, owner, j * PageSize).message)
  {
    r, calls := CollectPages(api, PhotosPolicy, owner, w);
    ErrorsPropagate(api, PhotosPolicy, owner, w);
    RunIsFilterOfFetched(api, PhotosPolicy, owner, w, 0);
    FetchSchedule(api, PhotosPolicy, owner, w);
    ReachCoverage(api, PhotosPolicy, owner, w);
    FetchErrors(api, PhotosPolicy, owner, w);
  }

  /** `get_videos_data`: never fails; a failing page request ends the loop
      and keeps the videos of the earlier pages. */
  method GetVideosData(api: Api, owner: int, w: Window) returns (videos: seq<Item>, calls: seq<Call>)
    ensures Run(Ok(videos), calls) == RunFrom(api, VideosPolicy, owner, w, 0)
    ensures forall x :: x in videos ==> InWindow(w, x)
    ensures videos == FilterWindow(Gather(api, VideosPolicy, owner, w, 0, true), w)
    ensures Scheduled(calls, 0, |PagesOf(api, Videos, owner)| + 1)
  {
    var r;
    r, calls := CollectPages(api, VideosPolicy, owner, w);
    FetchErrors(api, VideosPolicy, owner, w);
    videos := r.value;
    RunIsFilterOfFetched(api, VideosPolicy, owner, w, 0);
    FetchSchedule(api, VideosPolicy, owner, w);
  }

  /** A failing video page is the last page requested, and the loop still
      returns normally with what the earlier pages gathered. */
  lemma VideoErrorKeepsEarlier(api: Api, owner: int, w: Window, j: nat)
    requires FetchAt(api, Videos, owner, j * PageSize).PageError?
    ensures RunFrom(api, VideosPolicy, owner, w, 0).result.Ok?
    ensures forall o :: o in PageFetches(RunFrom(api, VideosPolicy, owner, w, 0).calls) ==> o <= j * PageSize
  {
    FetchErrors(api, VideosPolicy, owner, w);
    StopIsFinal(api, VideosPolicy, owner, w, j);
  }
}
