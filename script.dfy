/** The standalone collection script, test/all.py (`get_group_stats_by_name`):
    group lookup, community statistics, then every wall post (with reach
    statistics), every video and every photo, with no date window. */
module Script {
  import opened Wrappers
  import opened Remote
  import opened DateWindow
  import opened Enrichment
  import opened Collector
  import opened CollectorProps
  import opened VkData

  /** The post loop: reach statistics with the `{"error": msg}` placeholder,
      no empty-page stop, fetch errors propagate. */
  const ScriptPostsPolicy := Policy(Wall, ReachOr(ErrorNotes), false, false)

  /** The video loop: an API error breaks it; no empty-page stop. */
  const ScriptVideosPolicy := Policy(Videos, NoReach, true, false)

  /** The photo loop: an API error breaks it; no empty-page stop. */
  const ScriptPhotosPolicy := Policy(Photos, NoReach, true, false)

  /** The `group_stats` entry: the statistics, or the `{"error": msg}`
      dictionary that replaces a failed call. */
  datatype GroupStats = GroupStats(intervals: seq<map<string, int>>) | GroupStatsError(message: string)

  function GroupStatsOf(reply: StatsReply): (g: GroupStats)
    ensures g.GroupStatsError? <==> reply.StatsFailed?
    ensures reply.StatsFailed? ==> g.message == reply.message
    ensures reply.StatsIntervals? ==> g.intervals == reply.intervals
  {
    match reply
    case StatsIntervals(iv) => GroupStats(iv)
    case StatsFailed(msg) => GroupStatsError(msg)
  }

  /** The returned dictionary. */
  datatype Report = Report(groupInfo: GroupInfo, groupStats: GroupStats,
                           postsData: seq<Item>, videosData: seq<Item>, photosData: seq<Item>)

  /** The exceptions the script lets escape: the `ValueError` of an unknown
      group, or an API error from the lookup or from a wall page. */
  datatype ScriptError = GroupNotFound | ApiFailure(message: string)

  /** The owner id of the script: `-group_id`. */
  function ScriptOwner(groupId: int): (owner: int)
    ensures owner + groupId == 0
  {
    -groupId
  }

  /** One loop of the script: without a window it returns everything it
      fetched, in fetch order; a loop that swallows fetch errors never fails. */
  method CollectAll(api: Api, p: Policy, owner: int) returns (r: Result<seq<Item>, string>, calls: seq<Call>)
    ensures Run(r, calls) == RunFrom(api, p, owner, Unbounded, 0)
    ensures r.Ok? ==> r.value == Gather(api, p, owner, Unbounded, 0, false)
    ensures p.swallowFetchErrors ==> r.Ok?
  {
    r, calls := CollectPages(api, p, owner, Unbounded);
    UnboundedCollectsAll(api, p, owner, Unbounded, 0);
    FetchErrors(api, p, owner, Unbounded);
  }

  /** Everything after the lookup (whose calls are `done`): the community
      statistics, then the post, video and photo loops of the owner
      `-group_id`. */
  method CollectGroup(api: Api, g: GroupInfo, done: seq<Call>) returns (r: Result<Report, ScriptError>, calls: seq<Call>)
    ensures var owner := ScriptOwner(g.id);
      var posts := RunFrom(api, ScriptPostsPolicy, owner, Unbounded, 0);
      var videos := RunFrom(api, ScriptVideosPolicy, owner, Unbounded, 0);
      var photos := RunFrom(api, ScriptPhotosPolicy, owner, Unbounded, 0);
      (posts.result.Err? ==>
        r == Err(ApiFailure(posts.result.error)) && calls == done + [FetchCommunityStats(g.id)] + posts.calls) &&
      (posts.result.Ok? ==>
        r == Ok(Report(g, GroupStatsOf(api.communityStats(g.id)),
                       Gather(api, ScriptPostsPolicy, owner, Unbounded, 0, false),
                       Gather(api, ScriptVideosPolicy, owner, Unbounded, 0, false),
                       Gather(api, ScriptPhotosPolicy, owner, Unbounded, 0, false))) &&
        calls == done + [FetchCommunityStats(g.id)] + posts.calls + videos.calls + photos.calls)
  {
    var owner := ScriptOwner(g.id);
    calls := done + [FetchCommunityStats(g.id)];
    var groupStats := GroupStatsOf(api.communityStats(g.id));

    var posts, postCalls := CollectAll(api, ScriptPostsPolicy, owner);
    calls := calls + postCalls;
    if posts.Err? {
      r := Err(ApiFailure(posts.error));
      return;
    }
    var videos, videoCalls := CollectAll(api, ScriptVideosPolicy, owner);
    calls := calls + videoCalls;
    var photos, photoCalls := CollectAll(api, ScriptPhotosPolicy, owner);
    calls := calls + photoCalls;
    r := Ok(Report(g, groupStats, posts.value, videos.value, photos.value));
  }

  /** `get_group_stats_by_name`.  An unknown group escapes as the not-found
      error before any collection; otherwise posts, videos and photos are
      everything the respective loop fetched, in fetch order (there is no
      window); a wall error escapes, video and photo errors only end their
      loops. */
  method GetGroupStatsByName(api: Api, groupName: string) returns (r: Result<Report, ScriptError>, calls: seq<Call>)
    ensures |calls| >= 1 && calls[0] == LookupGroup(groupName)
    ensures r == Err(GroupNotFound) <==> api.groupsById(groupName) == Groups([])
    ensures api.groupsById(groupName).GroupsFailed? ==>
      r == Err(ApiFailure(api.groupsById(groupName).message)) && calls == [LookupGroup(groupName)]
    ensures GetGroupInfo(api, groupName).Ok? ==>
      var g := GetGroupInfo(api, groupName).value;
      var owner := ScriptOwner(g.id);
      var posts := RunFrom(api, ScriptPostsPolicy, owner, Unbounded, 0);
      var videos := RunFrom(api, ScriptVideosPolicy, owner, Unbounded, 0);
      var photos := RunFrom(api, ScriptPhotosPolicy, owner, Unbounded, 0);
      var before := [LookupGroup(groupName)] + [FetchCommunityStats(g.id)];
      (posts.result.Err? ==>
        r == Err(ApiFailure(posts.result.error)) && calls == before + posts.calls) &&
      (posts.result.Ok? ==>
        r == Ok(Report(g, GroupStatsOf(api.communityStats(g.id)),
                       Gather(api, ScriptPostsPolicy, owner, Unbounded, 0, false),
                       Gather(api, ScriptVideosPolicy, owner, Unbounded, 0, false),
                       Gather(api, ScriptPhotosPolicy, owner, Unbounded, 0, false))) &&
        calls == before + posts.calls + videos.calls + photos.calls)
  {
    var info := GetGroupInfo(api, groupName);
    if info.Err? {
      r := Err(if info.error.NotFound? then GroupNotFound else ApiFailure(info.error.message));
      calls := [LookupGroup(groupName)];
      return;
    }
    r, calls := CollectGroup(api, info.value, [LookupGroup(groupName)]);
  }

  /** Every post the script fetches reaches the statistics requests, in 30-id
      chunks, and the lists are aligned: the statistics requests name the ids
      of every post of the report. */
  lemma ScriptReachCoverage(api: Api, owner: int)
    ensures ReachIds(RunFrom(api, ScriptPostsPolicy, owner, Unbounded, 0).calls)
         == Ids(Gather(api, ScriptPostsPolicy, owner, Unbounded, 0, false))
  {
    ReachCoverage(api, ScriptPostsPolicy, owner, Unbounded);
    GatherWithoutEarlyStop(api, ScriptPostsPolicy, owner, Unbounded, 0);
  }
}
