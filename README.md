# social-stat-tracker: the aggregation engine, in Dafny

This project models the aggregation engine of social-stat-tracker and proves
properties of the model. The engine gathers a VK community's content and
engagement statistics from the paginated, rate-limited VK API. It has two
entry points:

- `get_group_metrics` in `back/routers/vk_route.py`, the `/metrics` handler.
  It resolves the group, turns `quick_range` into a date window, and collects
  wall posts (each page enriched with per-post reach statistics), photos and
  videos through the collectors of `back/services/vk_data.py`. It filters the
  posts by content kind and sorts them by a chosen counter.
- `get_group_stats_by_name` in `test/all.py`, the standalone script. It runs
  the same kind of loops without a date window and also fetches the
  community-wide statistics.

The model follows the source's own structure:

| module | file | models |
|---|---|---|
| `Wrappers` | wrappers.dfy | `Option`, `Result` |
| `Remote` | remote.dfy | the records the API returns, the replies of its calls, the API as a bundle of oracles, and the trace of calls |
| `Seqs` | seqs.dfy | "is a subsequence of" |
| `DateWindow` | window.dfy | the inclusive date window, falsy bounds and missing dates |
| `Enrichment` | enrichment.dfy | the 30-id reach chunks, the per-chunk fallback and the positional `zip` attachment (in place on an array) |
| `Collector` | collector.dfy | the generic paginated `while True` loop (`CollectPages`, one iteration `CollectOnePage`), its specification `RunFrom` / `Gather`, and the same run over a table of page steps (`Steps`, `RunOf`) |
| `CollectorProps` | collector_props.dfy | what the loop guarantees: window, order, schedule of requests, stopping, reach coverage, error propagation |
| `VkData` | vk_data.dfy | `get_group_info`, `get_posts_data`, `get_photos_data`, `get_videos_data` |
| `ContentFilter` | content_filter.dfy | `split(",")`, `strip()`, `lower()` and the content-kind filter loop |
| `PostSort` | post_sort.dfy | `sort_key` and `sorted(..., reverse=True)` |
| `Metrics` | metrics.dfy | `get_group_metrics` |
| `Script` | script.dfy | `get_group_stats_by_name` |

The six pagination loops differ only in four things, so they share one
collector parameterised by a `Policy`:

- the resource (`wall.get`, `photos.getAll`, `video.get`);
- whether posts get reach statistics, and which placeholder stands in for a
  failed chunk (`{}` in the backend, `{"error": msg}` in the script);
- whether a failing page request ends the loop quietly (`except
  vk_api.ApiError: break`) or propagates;
- whether an empty page ends the loop (`if not items: break`).

The API is a value, `Remote.Api`. Each resource of each owner holds a finite
list of page replies, one list entry per offset 0, 100, 200, and so on. The
post-reach call, the group lookup and the community statistics call are
functions of their arguments. A collector returns its result together with
the trace of calls it made (`seq<Call>`: page fetches, statistics requests
and the rate-limit pauses). The properties about requests, pauses and stops
are stated over that trace.

## Model

| member | source | states |
|---|---|---|
| DateWindow.FilterWindow | back/services/vk_data.py:64-75 | an item is kept exactly when it is in the input and inside the inclusive window (falsy bound = unbounded, missing date = 0); never longer than the input |
| DateWindow.FilterBatch | back/services/vk_data.py:64-75 | the `filtered_batch` loop computes exactly the window filter of the page |
| DateWindow.FilterWindowConcat | back/services/vk_data.py:64-78 | filtering page by page and extending equals filtering the concatenation |
| DateWindow.FilterWindowSubseq | back/services/vk_data.py:64-75 | the filter keeps the input order (a subsequence) |
| DateWindow.FilterUnbounded | back/services/vk_data.py:67-70 | with both bounds falsy nothing is dropped |
| DateWindow.FilterAllOlder | back/services/vk_data.py:70-74 | a page entirely older than a truthy `date_from` contributes nothing |
| Enrichment.Ids | back/services/vk_data.py:48 | one id per item, at the same position |
| Enrichment.IdsConcat | back/services/vk_data.py:48 | ids of a concatenation are the concatenated ids |
| Enrichment.ChunksPartition | back/services/vk_data.py:50-51 | the chunks concatenate back to the ids; there are ceil(n/30) of them; each is non-empty and at most 30 long; all but the last are exactly 30 long |
| Enrichment.ChunkAt | back/services/vk_data.py:50-51 | chunk j is `post_ids[30j : 30j+30]` |
| Enrichment.AlignedStats | back/services/vk_data.py:47-59 | when every chunk's answer is aligned, the statistics list has one record per id; record i comes from the reply to the chunk holding position i; a failed chunk gives the placeholder exactly at its own positions |
| Enrichment.AttachedAt | back/services/vk_data.py:61-62 | `zip` attaches record i to post i while records last; later posts are left unchanged; the page keeps its length |
| Enrichment.AttachedLength | back/services/vk_data.py:61-62 | attachment never changes the number of posts |
| Enrichment.AttachReach | back/services/vk_data.py:61-62 | the in-place update of the page array yields exactly the attached page |
| Enrichment.FetchChunkStats | back/services/vk_data.py:49-59 | the chunk loop builds `post_stats_all` as the concatenated chunk results (placeholders for failed chunks); it makes one statistics request per chunk, in chunk order |
| Collector.EnrichPage | back/services/vk_data.py:47-62 | the enriched page and its statistics requests are those of the specification |
| Collector.CollectOnePage | back/services/vk_data.py:42-94 | one iteration at offset 100·k is entry k of the table of specified page steps (`PageStep` at page k): it raises, breaks or advances, with that batch and that call trace, and it advances only while a further page exists |
| Collector.CollectPages | back/services/vk_data.py:37-97 | the loop returns exactly the specified run: its result and its call trace |
| Collector.TableRun | back/services/vk_data.py:37-97 | the run over any table whose entries are the page steps is the run of the loop from page 0 |
| CollectorProps.PageStepTrace | back/services/vk_data.py:42-59 | an iteration fetches its own offset exactly once and makes no pause; it requests statistics for exactly the ids of the raw page, in ceil(n/30) requests (none without enrichment) |
| CollectorProps.ReachCallsTrace | back/services/vk_data.py:50-59 | the chunk requests name the ids in order, one request per chunk |
| CollectorProps.EnrichedKeeps | back/services/vk_data.py:61-62 | enrichment keeps every post's position, id and date |
| CollectorProps.EnrichedIds | back/services/vk_data.py:61-62 | enrichment keeps the list of ids |
| CollectorProps.RunIsFilterOfFetched | back/services/vk_data.py:41-97 | a successful result is the window filter of the fetched (enriched) items, in fetch order |
| CollectorProps.CollectedInWindow | back/services/vk_data.py:64-78 | every returned item is inside the window and was fetched; the result is a subsequence of what was fetched |
| CollectorProps.NewestFirstComplete | back/services/vk_data.py:80-87 | when the loop swallows fetch errors or no page fails, and the items come newest first, the early stop loses nothing: the result is the window filter of everything the loop would enumerate without it |
| CollectorProps.FetchSchedule | back/services/vk_data.py:38-95 | pages are requested at offsets 0, 100, 200, ...; at least one and at most one more than the pages the source holds; there is one pause between each two requests |
| CollectorProps.StopIsFinal | back/services/vk_data.py:84-92 | no offset past a page that ends the loop is requested (failing fetch, empty page, early stop, `offset + 100 >= count`) |
| CollectorProps.GoesOn | back/services/vk_data.py:89-95 | conversely, while no page 0..j ends the loop, page j+1 is requested |
| CollectorProps.ReachCoverage | back/services/vk_data.py:47-59 | the statistics requests name exactly the ids of every fetched post, in order (none without enrichment) |
| CollectorProps.FetchErrors | back/services/vk_data.py:166-174 | a loop that swallows fetch errors never fails; a failure is the error reply to the last page requested |
| CollectorProps.ErrorPropagates | back/services/vk_data.py:41-42 | a loop that does not swallow fetch errors and reaches a page answered with an error fails with that error, dropping the pages gathered before it |
| CollectorProps.ErrorsPropagate | back/services/vk_data.py:41-42 | the same for every reached failing page at once, as the collectors state it |
| CollectorProps.EmptyPageStops | back/services/vk_data.py:43-45 | an empty page ends the loop with nothing added and no statistics request |
| CollectorProps.UnboundedCollectsAll | test/all.py:79-82 | without truthy bounds the result is every fetched item, in fetch order |
| CollectorProps.GatherWithoutEarlyStop | back/services/vk_data.py:86-87 | without a truthy `date_from` the early stop never applies |
| VkData.GetGroupInfo | back/services/vk_data.py:22-26 | success exactly when the lookup returns a non-empty list, and then its first group; the not-found error exactly when the list is empty; a failed lookup propagates |
| VkData.GetPostsData | back/services/vk_data.py:29-97 | the wall run: every post in the window; the window filter of the fetched enriched posts; the offset schedule; statistics for every fetched post; an error is the last wall reply; a reached wall page answered with an error fails the call with that error |
| VkData.GetPhotosData | back/services/vk_data.py:100-150 | the same loop without statistics requests: every photo in the window, the window filter of the fetched photos, the offset schedule; an error is the last photo reply, and a reached photo page answered with an error fails the call with that error, dropping the earlier pages |
| VkData.GetVideosData | back/services/vk_data.py:153-204 | never fails; every video in the window; the window filter of the fetched videos; the offset schedule |
| VkData.VideoErrorKeepsEarlier | back/services/vk_data.py:166-174 | a failing video page ends the loop normally, and nothing after it is requested |
| ContentFilter.Split | back/routers/vk_route.py:106 | at least one piece, none containing a comma |
| ContentFilter.JoinSplit | back/routers/vk_route.py:106 | the pieces joined by commas give the parameter back |
| ContentFilter.SplitJoin | back/routers/vk_route.py:106 | splitting comma-free pieces joined by commas gives the pieces back |
| ContentFilter.Strip | back/routers/vk_route.py:106 | empty exactly when the input is all whitespace (the `str.isspace` set); otherwise its ends are not whitespace |
| ContentFilter.StripUnique | back/routers/vk_route.py:106 | the slice between whitespace-only margins whose own ends are not whitespace is the stripped string |
| ContentFilter.StripIdempotent | back/routers/vk_route.py:106 | stripping twice is stripping once |
| ContentFilter.StripPadded | back/routers/vk_route.py:106 | stripping removes any whitespace padding around a token |
| ContentFilter.Lower | back/routers/vk_route.py:106 | same length; no capital left; every other character kept |
| ContentFilter.LowerIdempotent | back/routers/vk_route.py:106 | lowercasing twice is lowercasing once |
| ContentFilter.ParseFilters | back/routers/vk_route.py:106 | one token per comma-separated piece, each stripped and lowercased |
| ContentFilter.ParseJoined | back/routers/vk_route.py:106 | parsing a comma-joined list of clean tokens returns the tokens |
| ContentFilter.ScanAttachments | back/routers/vk_route.py:111-119 | the flags are set exactly when some attachment has type photo or video |
| ContentFilter.KindFilter | back/routers/vk_route.py:107-125 | a post is kept exactly when it is in the input and has non-blank text, a photo or a video of a chosen kind |
| ContentFilter.FilterPosts | back/routers/vk_route.py:107-125 | the filter loop computes exactly `KindFilter` |
| ContentFilter.KindFilterSubseq | back/routers/vk_route.py:107-125 | the filter keeps the posts' order |
| ContentFilter.UnknownKindsKeepNothing | back/routers/vk_route.py:110-123 | a filter list naming none of text, photo, video keeps nothing |
| PostSort.SortKeyMeaning | back/routers/vk_route.py:130-141 | likes, reposts, comments and views select `reach_subscribers`, `links`, `report` and `reach_total`; anything else selects the date; a missing counter or missing statistics count 0 |
| PostSort.SortPostsSorted | back/routers/vk_route.py:143 | the sorted posts are a permutation of the input with non-increasing keys |
| PostSort.SortPostsStable | back/routers/vk_route.py:143 | the posts with any one key keep their input order |
| Metrics.OwnerOf | back/routers/vk_route.py:80-81 | the owner id is never positive and is the group id or its negation |
| Metrics.ResolveWindow | back/routers/vk_route.py:86-95 | the reassignment yields the resolved window: a shortcut overrides both bounds |
| Metrics.QuickRangeKeeps | back/routers/vk_route.py:86-95 | under week, month or year an item is kept exactly when it dates from the last 604800, 2592000 or 31536000 seconds up to now |
| Metrics.PostStageFacts | back/routers/vk_route.py:105-143 | the response posts are a permutation of the filtered posts, in non-increasing key order and stable; each is a collected post that passes the filter; without filters nothing is dropped |
| Metrics.GetGroupMetrics | back/routers/vk_route.py:57-156 | the 404 exactly when the lookup is empty, before any collection; otherwise posts, photos, then videos in the resolved window of `-abs(id)`; the posts are filtered and sorted; photos and videos are returned as collected; a wall or photo error propagates; the body has the four keys |
| Script.GroupStatsOf | test/all.py:66-70 | a failed statistics call becomes the error entry with its message; otherwise the intervals are kept |
| Script.ScriptOwner | test/all.py:54-57 | the owner id is the negated group id |
| Script.CollectAll | test/all.py:76-152 | a window-free loop returns everything it fetched; a loop that swallows errors never fails |
| Script.CollectGroup | test/all.py:59-165 | the statistics call, then posts, videos and photos of `-group_id`; a wall error propagates; otherwise the report holds every fetched item of each kind |
| Script.GetGroupStatsByName | test/all.py:6-165 | the lookup first; the not-found error exactly when it is empty; a failed lookup propagates; otherwise the report of `CollectGroup` |
| Script.ScriptReachCoverage | test/all.py:89-103 | the script's statistics requests name exactly the ids of every post of the report |

## Left out

- The HTTP layer, `vk_api` and the network are not modelled. Every API reply
  is a value of `Remote.Api`. Tokens, sessions and the `fields` list sent to
  the lookup are dropped. A group's profile fields are carried as an
  uninterpreted map.
- `time.sleep(0.3)` is modelled as a `Pause` entry in the call trace, nothing
  more. Wall-clock spacing is not modelled. `time.time()` is the `now`
  parameter of `Metrics.GetGroupMetrics`.
- A page source that never runs dry is not modelled. Each resource holds a
  finite list of replies, and a request past its end is answered by an empty
  page with count 0. This bounds every loop; the source's loops end only
  when the API's `count` or an empty page ends them.
- Exceptions other than the API error and the empty-lookup `ValueError` are
  not modelled. That includes a malformed reply, a missing `id` key and an
  HTTP failure. Error messages are plain strings.
- The in-place mutation of the script's post dictionaries after
  `all_posts.extend(items)` is modelled as appending the enriched items. The
  aliasing itself is not modelled. The backend's attachment is modelled in
  place on an array (`Enrichment.AttachReach`).
- ContentFilter.Lower: lowercases ASCII letters only. For the three kind
  names this gives the same test as Python's `str.lower()`. The only
  non-ASCII character that lowercases to an ASCII letter is U+212A KELVIN
  SIGN, which becomes `k`, and none of the names contains `k`. Other
  non-ASCII letters are left unchanged.
- Metrics.GetGroupMetrics: the 404 detail is the group name. The handler
  sends `str(e)` of the `ValueError`, a fixed Russian sentence around the
  name (back/services/vk_data.py:24); the model keeps only the name it
  carries.
- JSON serialisation, printing and the script's `__main__` block are not
  modelled. Authentication, user and group administration and the database
  (`back/routers/auth.py`, `groups.py`, `directors.py`, `back/db/`) are not
  part of this model.
- Behaviour of the code worth noting, which the model follows:
  - There is one pause after each page that advances the loop. There is no
    wait before the first request, before a statistics request or before the
    lookup.
  - In `get_posts_data` and `get_photos_data` a failing page request
    propagates out of the collector and out of `get_group_metrics`. Only
    `get_videos_data` turns it into "no more pages".
  - A statistics reply shorter than its chunk is not padded. `zip` stops at
    the shorter list, so the later posts of the page get no
    `stats_post_reach`.
  - The script keeps pages after an empty one while `count` allows; it has
    no empty-page stop. The backend collectors stop at an empty page.
