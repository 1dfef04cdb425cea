/** The remote community API as the aggregation engine sees it: records the
    API returns, the replies of its calls, and the API itself as a bundle of
    oracles. Nothing here talks to a network; every reply is a parameter. */
module Remote {
  import opened Wrappers

  /** The `stats_post_reach` value attached to a post.  `Counters` is a
      counter dictionary as the statistics call returns it (or the empty one
      the backend substitutes on failure); `ErrorNote` is the
      `{"error": message}` dictionary the standalone script substitutes. */
  datatype Reach = Counters(values: map<string, int>) | ErrorNote(message: string)

  /** One attachment of a post; `kind` is its `type` key, which may be absent. */
  datatype Attachment = Attachment(kind: Option<string>)

  /** A content item (wall post, photo or video).  `date` may be absent;
      `text` is "" and `attachments` is [] when the reply has no such key;
      `reach` is the `stats_post_reach` key, absent until enrichment. */
  datatype Item = Item(
    id: int,
    date: Option<int>,
    text: string,
    attachments: seq<Attachment>,
    reach: Option<Reach>)

  /** The three independently paginated resources. */
  datatype Resource = Wall | Photos | Videos

  /** The reply to one page request: the items and the reported total count
      (0 when the reply has no `count` key), or an API error. */
  datatype PageReply = Page(items: seq<Item>, count: int) | PageError(message: string)

  /** The reply to one reach-statistics request for a chunk of post ids. */
  datatype ReachReply = ReachList(stats: seq<Reach>) | ReachFailed(message: string)

  /** Group metadata; `fields` stands for the optional profile fields the
      engine passes through without interpreting them. */
  datatype GroupInfo = GroupInfo(id: int, name: string, screenName: string, fields: map<string, string>)

  /** The reply of the group lookup: a list of groups (empty when the name
      does not resolve), or an API error. */
  datatype GroupsReply = Groups(groups: seq<GroupInfo>) | GroupsFailed(message: string)

  /** The reply of the community-wide statistics call (only the standalone
      script makes it). */
  datatype StatsReply = StatsIntervals(intervals: seq<map<string, int>>) | StatsFailed(message: string)

  /** The remote API as oracles.  `pages(resource, owner)` lists the replies
      at offsets 0, 100, 200, ... in order; a request past the end of that
      list is answered by an empty page with count 0. */
  datatype Api = Api(
    pages: (Resource, int) -> seq<PageReply>,
    postReach: (int, seq<int>) -> ReachReply,
    groupsById: string -> GroupsReply,
    communityStats: int -> StatsReply)

  /** One remote call or rate-limit pause, in the order the engine makes them. */
  datatype Call =
    | FetchPage(resource: Resource, owner: int, offset: int)
    | FetchReach(owner: int, ids: seq<int>)
    | Pause
    | LookupGroup(name: string)
    | FetchCommunityStats(groupId: int)

  /** Page size of every paginated request. */
  const PageSize: nat := 100

  /** The reply to a page request at `offset`; page j covers offsets
      [100 * j, 100 * j + 100). */
  function FetchAt(api: Api, resource: Resource, owner: int, offset: nat): PageReply
  {
    var pages := api.pages(resource, owner);
    if offset / PageSize < |pages| then pages[offset / PageSize] else Page([], 0)
  }

  /** The list of replies a resource of an owner holds. */
  function PagesOf(api: Api, resource: Resource, owner: int): seq<PageReply>
  {
    api.pages(resource, owner)
  }
}
