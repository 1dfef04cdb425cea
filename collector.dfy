/** The paginated collectors: the `while True` offset loops of
    back/services/vk_data.py (posts, photos, videos) and of test/all.py
    (posts, videos, photos).  The six loops differ only in a `Policy`; each
    is specified by `RunFrom`, the run of the loop from page k on. */
module Collector {
  import opened Wrappers
  import opened Remote
  import opened Seqs
  import opened DateWindow
  import opened Enrichment

  /** Whether a page's posts are enriched with reach statistics, and with
      which placeholder for a failed chunk. */
  datatype Enrich = NoReach | ReachOr(fallback: Fallback)

  /** What distinguishes the six loops: the resource fetched, the
      enrichment, whether a failing page fetch ends the loop quietly (`except
      vk_api.ApiError: break`) or propagates, and whether an empty page ends
      the loop (`if not items: break`). */
  datatype Policy = Policy(resource: Resource, enrich: Enrich, swallowFetchErrors: bool, stopOnEmpty: bool)

  /** The result of a collector (the list, or the propagated fetch error)
      and the remote calls and pauses it made, in order. */
  datatype Run = Run(result: Result<seq<Item>, string>, calls: seq<Call>)

  /** The page's items after `stats_post_reach` has been attached. */
  function Enriched(api: Api, p: Policy, owner: int, items: seq<Item>): seq<Item>
  {
    match p.enrich
    case NoReach => items
    case ReachOr(fb) => Attached(items, StatsAll(api, owner, Ids(items), fb))
  }

  /** The statistics requests made for a page. */
  function PageReachCalls(p: Policy, owner: int, items: seq<Item>): seq<Call>
  {
    match p.enrich
    case NoReach => []
    case ReachOr(_) => ReachCalls(owner, Chunks(Ids(items)))
  }

  /** The early stop: `date_from` is truthy and the last (oldest) raw item
      of the page is older than it. */
  predicate StopsEarly(items: seq<Item>, w: Window)
  {
    Truthy(w.from) && items != [] && DateOf(items[|items| - 1]) < w.from.value
  }

  /** The items of one page in front of the result of the later pages; an
      exception from a later page discards them. */
  function Then(batch: seq<Item>, r: Result<seq<Item>, string>): Result<seq<Item>, string>
  {
    match r
    case Ok(v) => Ok(batch + v)
    case Err(e) => Err(e)
  }

  function Extend(batch: seq<Item>, calls: seq<Call>, run: Run): Run
  {
    Run(Then(batch, run.result), calls + run.calls)
  }

  /** How one iteration of the loop ends: with the next offset, with
      `break`, or with an exception. */
  datatype Next = Advance | Break | Raise(message: string)

  /** One iteration: how it ends, the window-filtered items it appends and
      the remote calls it makes. */
  datatype PageRun = PageRun(next: Next, batch: seq<Item>, calls: seq<Call>)

  /** The items of a reply, [] for an error. */
  function RawItems(reply: PageReply): seq<Item>
  {
    match reply
    case PageError(_) => []
    case Page(items, _) => items
  }

  /** The enriched raw items page k contributes before window filtering:
      none for a failed fetch or an empty page. */
  function PageItems(api: Api, p: Policy, owner: int, k: nat): seq<Item>
  {
    match FetchAt(api, p.resource, owner, k * PageSize)
    case PageError(_) => []
    case Page(items, _) => if p.stopOnEmpty && items == [] then [] else Enriched(api, p, owner, items)
  }

  /** Whether the loop goes on to page k + 1 after page k: the fetch
      succeeded, the page is not an empty page that stops the loop, the early
      stop does not apply (when `early`), and `offset + 100 < count`. */
  predicate Advances(api: Api, p: Policy, owner: int, w: Window, k: nat, early: bool)
    ensures Advances(api, p, owner, w, k, early) ==> k < |PagesOf(api, p.resource, owner)|
  {
    match FetchAt(api, p.resource, owner, k * PageSize)
    case PageError(_) => false
    case Page(items, count) =>
      !(p.stopOnEmpty && items == []) && !(early && StopsEarly(items, w)) && k * PageSize + PageSize < count
  }

  /** The iteration at page k (offset 100 * k). */
  function PageStep(api: Api, p: Policy, owner: int, w: Window, k: nat): PageRun
  {
    var reply := FetchAt(api, p.resource, owner, k * PageSize);
    PageRun(
      if reply.PageError? && !p.swallowFetchErrors then Raise(reply.message)
      else if Advances(api, p, owner, w, k, true) then Advance
      else Break,
      FilterWindow(PageItems(api, p, owner, k), w),
      [FetchPage(p.resource, owner, k * PageSize)] + PageReachCalls(p, owner, RawItems(reply)))
  }

  /** The loop from page k on. */
  function RunFrom(api: Api, p: Policy, owner: int, w: Window, k: nat): Run
    decreases |PagesOf(api, p.resource, owner)| - k
  {
    var s := PageStep(api, p, owner, w, k);
    match s.next
    case Raise(msg) => Run(Err(msg), s.calls)
    case Break => Run(Ok(s.batch), s.calls)
    case Advance => Extend(s.batch, s.calls + [Pause], RunFrom(api, p, owner, w, k + 1))
  }

  /** Every item the loop fetches from page k on, enriched but not yet
      window-filtered, in fetch order; `early` says whether the early stop
      is applied (with `early` false this is everything the source
      enumerates under the count and empty-page rules). */
  function Gather(api: Api, p: Policy, owner: int, w: Window, k: nat, early: bool): seq<Item>
    decreases |PagesOf(api, p.resource, owner)| - k
  {
    PageItems(api, p, owner, k) + if Advances(api, p, owner, w, k, early) then Gather(api, p, owner, w, k + 1, early) else []
  }

  // ---------------------------------------------------------------------
  // The loop over a table of iterations

  /** The iterations at pages 0 .. n, where n is the number of pages the
      source holds; no iteration past them advances. */
  function Steps(api: Api, p: Policy, owner: int, w: Window): (t: seq<PageRun>)
    ensures |t| == |PagesOf(api, p.resource, owner)| + 1
    ensures forall j :: 0 <= j < |t| ==> t[j] == PageStep(api, p, owner, w, j)
  {
    seq(|PagesOf(api, p.resource, owner)| + 1, j requires 0 <= j => PageStep(api, p, owner, w, j))
  }

  /** The loop driven by a table of iterations, entry k being the iteration
      at page k. */
  function RunOf(t: seq<PageRun>, k: nat): Run
    requires k < |t|
    decreases |t| - k
  {
    match t[k].next
    case Raise(msg) => Run(Err(msg), t[k].calls)
    case Break => Run(Ok(t[k].batch), t[k].calls)
    case Advance =>
      if k + 1 < |t| then Extend(t[k].batch, t[k].calls + [Pause], RunOf(t, k + 1))
      else Run(Ok(t[k].batch), t[k].calls)
  }

  lemma {:induction false} RunFromTable(api: Api, p: Policy, owner: int, w: Window, k: nat)
    requires k <= |PagesOf(api, p.resource, owner)|
    ensures RunFrom(api, p, owner, w, k) == RunOf(Steps(api, p, owner, w), k)
    decreases |PagesOf(api, p.resource, owner)| - k
  {
    var t := Steps(api, p, owner, w);
    assert t[k] == PageStep(api, p, owner, w, k);
    if t[k].next.Advance? {
      assert Advances(api, p, owner, w, k, true);
      RunFromTable(api, p, owner, w, k + 1);
      assert RunOf(t, k) == Extend(t[k].batch, t[k].calls + [Pause], RunOf(t, k + 1));
    }
  }

  /** `t` is the table of iterations, characterised entry by entry (the
      loop refers to its entries without unfolding the iterations). */
  ghost predicate IsSteps(api: Api, p: Policy, owner: int, w: Window, t: seq<PageRun>)
  {
    |t| == |PagesOf(api, p.resource, owner)| + 1 &&
    forall j {:trigger PageStep(api, p, owner, w, j)} :: 0 <= j < |t| ==> t[j] == PageStep(api, p, owner, w, j)
  }

  lemma StepTable(api: Api, p: Policy, owner: int, w: Window) returns (t: seq<PageRun>)
    ensures IsSteps(api, p, owner, w, t)
  {
    t := Steps(api, p, owner, w);
  }

  /** The loop over the table is the loop from page 0. */
  lemma TableRun(api: Api, p: Policy, owner: int, w: Window, t: seq<PageRun>)
    requires IsSteps(api, p, owner, w, t)
    ensures RunOf(t, 0) == RunFrom(api, p, owner, w, 0)
  {
    var s := Steps(api, p, owner, w);
    forall j | 0 <= j < |t| ensures t[j] == s[j] {
      assert t[j] == PageStep(api, p, owner, w, j);
    }
    assert t == s;
    RunFromTable(api, p, owner, w, 0);
  }

  // ---------------------------------------------------------------------
  // The loop itself

  /** Enrichment of one raw page: the chunked statistics requests, then the
      positional attachment onto the page's posts in place. */
  method EnrichPage(api: Api, p: Policy, owner: int, items: seq<Item>)
    returns (enriched: seq<Item>, reachCalls: seq<Call>)
    ensures enriched == Enriched(api, p, owner, items)
    ensures reachCalls == PageReachCalls(p, owner, items)
  {
    match p.enrich {
      case NoReach =>
        enriched, reachCalls := items, [];
      case ReachOr(fb) =>
        var stats;
        stats, reachCalls := FetchChunkStats(api, owner, Ids(items), fb);
        var a := new Item[|items|](i requires 0 <= i < |items| => items[i]);
        assert a[..] == items;
        AttachReach(a, stats);
        enriched := a[..];
    }
  }

  /** The body of the loop for the page at `offset`: fetch, stop on a
      failure or an empty page, enrich, filter, then decide whether to go on.
      It performs entry k of the table of iterations. */
  method CollectOnePage(api: Api, p: Policy, owner: int, w: Window, offset: nat, ghost t: seq<PageRun>, ghost k: nat)
    returns (next: Next, batch: seq<Item>, pageCalls: seq<Call>)
    requires IsSteps(api, p, owner, w, t) && k < |t| && offset == k * PageSize
    ensures PageRun(next, batch, pageCalls) == t[k]
    ensures next.Advance? ==> k + 1 < |t|
  {
    assert t[k] == PageStep(api, p, owner, w, k);
    pageCalls := [FetchPage(p.resource, owner, offset)];
    var reply := FetchAt(api, p.resource, owner, offset);
    if reply.PageError? {
      next := if p.swallowFetchErrors then Break else Raise(reply.message);
      batch := [];
      return;
    }
    var items := reply.items;
    if p.stopOnEmpty && items == [] {
      next, batch := Break, [];
      assert Chunks(Ids(items)) == [];
      assert pageCalls + PageReachCalls(p, owner, items) == pageCalls;
      return;
    }
    var enriched, reachCalls := EnrichPage(api, p, owner, items);
    pageCalls := pageCalls + reachCalls;
    batch := FilterBatch(enriched, w);
    if Truthy(w.from) && items != [] && DateOf(items[|items| - 1]) < w.from.value {
      next := Break;
    } else if offset + PageSize >= reply.count {
      next := Break;
    } else {
      next := Advance;
    }
  }

  /** The collector loop under policy `p`. */
  method CollectPages(api: Api, p: Policy, owner: int, w: Window)
    returns (r: Result<seq<Item>, string>, calls: seq<Call>)
    ensures Run(r, calls) == RunFrom(api, p, owner, w, 0)
  {
    ghost var t := StepTable(api, p, owner, w);
    ghost var goal := RunOf(t, 0);
    var all: seq<Item> := [];
    calls := [];
    var offset: nat := 0;
    ghost var k: nat := 0;
    assert Extend(all, calls, goal) == goal by {
      assert calls + goal.calls == goal.calls;
      ThenNil(goal.result);
    }
    while true
      invariant offset == k * PageSize && k < |t|
      invariant Extend(all, calls, RunOf(t, k)) == goal
      decreases |t| - k
    {
      var next, batch, pageCalls := CollectOnePage(api, p, owner, w, offset, t, k);
      LoopStep(t, k, all, calls, goal, PageRun(next, batch, pageCalls));
      match next {
        case Raise(msg) =>
          calls := calls + pageCalls;
          r := Err(msg);
          break;
        case Break =>
          calls := calls + pageCalls;
          all := all + batch;
          r := Ok(all);
          break;
        case Advance =>
          calls := calls + pageCalls + [Pause];
          all := all + batch;
          NextOffset(k);
          offset := offset + PageSize;
          k := k + 1;
      }
    }
    TableRun(api, p, owner, w, t);
  }

  /** The offset of the next page. */
  lemma NextOffset(k: nat)
    ensures k * PageSize + PageSize == (k + 1) * PageSize
  {
  }

  /** How the loop's invariant absorbs the iteration `s` at page k: a raise
      or a break completes the run; an advance leaves the rest of the run to
      the next page. */
  lemma LoopStep(t: seq<PageRun>, k: nat, all: seq<Item>, calls: seq<Call>, goal: Run, s: PageRun)
    requires k < |t| && s == t[k]
    requires Extend(all, calls, RunOf(t, k)) == goal
    ensures s.next.Raise? ==> Run(Err(s.next.message), calls + s.calls) == goal
    ensures s.next.Break? ==> Run(Ok(all + s.batch), calls + s.calls) == goal
    ensures s.next.Advance? && k + 1 < |t| ==> Extend(all + s.batch, calls + s.calls + [Pause], RunOf(t, k + 1)) == goal
  {
    if k + 1 < |t| {
      ExtendStep(all, calls, s.batch, s.calls, RunOf(t, k + 1));
    } else {
      ExtendStep(all, calls, s.batch, s.calls, Run(Ok([]), []));
    }
  }

  /** How the accumulated list and trace absorb one iteration. */
  lemma ExtendStep(all: seq<Item>, before: seq<Call>, batch: seq<Item>, pageCalls: seq<Call>, rest: Run)
    ensures Extend(all, before, Extend(batch, pageCalls + [Pause], rest)) == Extend(all + batch, before + pageCalls + [Pause], rest)
    ensures Extend(all, before, Run(Ok(batch), pageCalls)) == Run(Ok(all + batch), before + pageCalls)
    ensures forall m :: Extend(all, before, Run(Err(m), pageCalls)) == Run(Err(m), before + pageCalls)
  {
    ThenAssoc(all, batch, rest.result);
    assert before + (pageCalls + [Pause] + rest.calls) == before + pageCalls + [Pause] + rest.calls;
  }

  lemma ThenNil(r: Result<seq<Item>, string>)
    ensures Then([], r) == r
  {
    if r.Ok? {
      assert [] + r.value == r.value;
    }
  }

  lemma ThenAssoc(a: seq<Item>, b: seq<Item>, r: Result<seq<Item>, string>)
    ensures Then(a, Then(b, r)) == Then(a + b, r)
  {
    if r.Ok? {
      assert a + (b + r.value) == (a + b) + r.value;
    }
  }
}
