/** What the collector loops promise, proved about their specification
    `Collector.RunFrom`: window soundness, fetch order, completeness when the
    source is newest-first, the fetch schedule, the stop rules, enrichment
    coverage and error behaviour. */
module CollectorProps {
  import opened Wrappers
  import opened Remote
  import opened Seqs
  import opened DateWindow
  import opened Enrichment
  import opened Collector

  // ---------------------------------------------------------------------
  // Views of a call trace

  /** Offsets of the page requests, in order. */
  function PageFetches(calls: seq<Call>): seq<int>
  {
    if calls == [] then [] else
      (if calls[0].FetchPage? then [calls[0].offset] else []) + PageFetches(calls[1..])
  }

  /** Number of rate-limit pauses. */
  function Pauses(calls: seq<Call>): nat
  {
    if calls == [] then 0 else (if calls[0].Pause? then 1 else 0) + Pauses(calls[1..])
  }

  /** The post ids of the statistics requests, concatenated in order. */
  function ReachIds(calls: seq<Call>): seq<int>
  {
    if calls == [] then [] else
      (if calls[0].FetchReach? then calls[0].ids else []) + ReachIds(calls[1..])
  }

  /** Number of statistics requests. */
  function ReachRequests(calls: seq<Call>): nat
  {
    if calls == [] then 0 else (if calls[0].FetchReach? then 1 else 0) + ReachRequests(calls[1..])
  }

  lemma TraceConcat(a: seq<Call>, b: seq<Call>)
    ensures PageFetches(a + b) == PageFetches(a) + PageFetches(b)
    ensures Pauses(a + b) == Pauses(a) + Pauses(b)
    ensures ReachIds(a + b) == ReachIds(a) + ReachIds(b)
    ensures ReachRequests(a + b) == ReachRequests(a) + ReachRequests(b)
  {
    FetchesConcat(a, b);
    PausesConcat(a, b);
    ReachIdsConcat(a, b);
    RequestsConcat(a, b);
  }

  lemma {:induction false} RequestsConcat(a: seq<Call>, b: seq<Call>)
    ensures ReachRequests(a + b) == ReachRequests(a) + ReachRequests(b)
    decreases |a|
  {
    if a == [] {
      assert a + b == b;
    } else {
      assert (a + b)[0] == a[0];
      assert (a + b)[1..] == a[1..] + b;
      RequestsConcat(a[1..], b);
      assert ReachRequests(a + b) == (if a[0].FetchReach? then 1 else 0) + ReachRequests(a[1..] + b);
    }
  }

  lemma {:induction false} FetchesConcat(a: seq<Call>, b: seq<Call>)
    ensures PageFetches(a + b) == PageFetches(a) + PageFetches(b)
    decreases |a|
  {
    if a == [] {
      assert a + b == b;
    } else {
      assert (a + b)[0] == a[0];
      assert (a + b)[1..] == a[1..] + b;
      FetchesConcat(a[1..], b);
      assert PageFetches(a + b) == (if a[0].FetchPage? then [a[0].offset] else []) + PageFetches(a[1..] + b);
    }
  }

  lemma {:induction false} PausesConcat(a: seq<Call>, b: seq<Call>)
    ensures Pauses(a + b) == Pauses(a) + Pauses(b)
    decreases |a|
  {
    if a == [] {
      assert a + b == b;
    } else {
      assert (a + b)[0] == a[0];
      assert (a + b)[1..] == a[1..] + b;
      PausesConcat(a[1..], b);
      assert Pauses(a + b) == (if a[0].Pause? then 1 else 0) + Pauses(a[1..] + b);
    }
  }

  lemma {:induction false} ReachIdsConcat(a: seq<Call>, b: seq<Call>)
    ensures ReachIds(a + b) == ReachIds(a) + ReachIds(b)
    decreases |a|
  {
    if a == [] {
      assert a + b == b;
    } else {
      assert (a + b)[0] == a[0];
      assert (a + b)[1..] == a[1..] + b;
      ReachIdsConcat(a[1..], b);
      assert ReachIds(a + b) == (if a[0].FetchReach? then a[0].ids else []) + ReachIds(a[1..] + b);
    }
  }

  lemma {:induction false} ReachCallsTrace(owner: int, cs: seq<seq<int>>)
    ensures PageFetches(ReachCalls(owner, cs)) == []
    ensures Pauses(ReachCalls(owner, cs)) == 0
    ensures ReachIds(ReachCalls(owner, cs)) == Flatten(cs)
    ensures ReachRequests(ReachCalls(owner, cs)) == |cs|
    decreases |cs|
  {
    if cs != [] {
      ReachCallsTrace(owner, cs[1..]);
      TraceConcat([FetchReach(owner, cs[0])], ReachCalls(owner, cs[1..]));
    }
  }

  /** One iteration makes exactly one page request, at offset 100 * k, no
      pause, and statistics requests for exactly the ids of the raw page, in
      ceil(n / 30) requests for a page of n posts (none for an empty page). */
  lemma PageStepTrace(api: Api, p: Policy, owner: int, w: Window, k: nat)
    ensures PageFetches(PageStep(api, p, owner, w, k).calls) == [k * PageSize]
    ensures Pauses(PageStep(api, p, owner, w, k).calls) == 0
    ensures ReachIds(PageStep(api, p, owner, w, k).calls)
         == if p.enrich.NoReach? then [] else Ids(RawItems(FetchAt(api, p.resource, owner, k * PageSize)))
    ensures ReachRequests(PageStep(api, p, owner, w, k).calls)
         == if p.enrich.NoReach? then 0 else (|RawItems(FetchAt(api, p.resource, owner, k * PageSize))| + ChunkSize - 1) / ChunkSize
  {
    var items := RawItems(FetchAt(api, p.resource, owner, k * PageSize));
    var fetch := [FetchPage(p.resource, owner, k * PageSize)];
    var rc := PageReachCalls(p, owner, items);
    TraceConcat(fetch, rc);
    match p.enrich
    case NoReach =>
    case ReachOr(_) =>
      ReachCallsTrace(owner, Chunks(Ids(items)));
      ChunksPartition(Ids(items));
  }

  /** Enrichment keeps the page's length and every item's id and date. */
  lemma EnrichedKeeps(api: Api, p: Policy, owner: int, items: seq<Item>)
    ensures |Enriched(api, p, owner, items)| == |items|
    ensures forall i :: 0 <= i < |items| ==>
      Enriched(api, p, owner, items)[i].id == items[i].id &&
      DateOf(Enriched(api, p, owner, items)[i]) == DateOf(items[i])
  {
    match p.enrich
    case NoReach =>
    case ReachOr(fb) =>
      var stats := StatsAll(api, owner, Ids(items), fb);
      AttachedLength(items, stats);
      forall i | 0 <= i < |items|
        ensures Attached(items, stats)[i].id == items[i].id
        ensures DateOf(Attached(items, stats)[i]) == DateOf(items[i])
      {
        AttachedAt(items, stats, i);
      }
  }

  lemma EnrichedIds(api: Api, p: Policy, owner: int, items: seq<Item>)
    ensures Ids(Enriched(api, p, owner, items)) == Ids(items)
  {
    EnrichedKeeps(api, p, owner, items);
  }

  // ---------------------------------------------------------------------
  // The collected items

  /** The result is the window filter of everything fetched, in fetch
      order: the concatenation of each fetched page's filtered items. */
  lemma {:induction false} RunIsFilterOfFetched(api: Api, p: Policy, owner: int, w: Window, k: nat)
    ensures RunFrom(api, p, owner, w, k).result.Ok? ==>
      RunFrom(api, p, owner, w, k).result.value == FilterWindow(Gather(api, p, owner, w, k, true), w)
    decreases |PagesOf(api, p.resource, owner)| - k
  {
    var s := PageStep(api, p, owner, w, k);
    var e := PageItems(api, p, owner, k);
    if s.next.Advance? {
      var rest := RunFrom(api, p, owner, w, k + 1);
      assert RunFrom(api, p, owner, w, k) == Extend(FilterWindow(e, w), s.calls + [Pause], rest);
      assert Gather(api, p, owner, w, k, true) == e + Gather(api, p, owner, w, k + 1, true);
      RunIsFilterOfFetched(api, p, owner, w, k + 1);
      FilterWindowConcat(e, Gather(api, p, owner, w, k + 1, true), w);
    } else {
      assert Gather(api, p, owner, w, k, true) == e + [] == e;
    }
  }

  /** Window soundness and order: every returned item satisfies the window,
      and the result is a subsequence of the fetched items. */
  lemma CollectedInWindow(api: Api, p: Policy, owner: int, w: Window)
    ensures RunFrom(api, p, owner, w, 0).result.Ok? ==>
      (forall x :: x in RunFrom(api, p, owner, w, 0).result.value ==> InWindow(w, x)) &&
      IsSubseq(RunFrom(api, p, owner, w, 0).result.value, Gather(api, p, owner, w, 0, true)) &&
      (forall x :: x in RunFrom(api, p, owner, w, 0).result.value ==> x in Gather(api, p, owner, w, 0, true))
  {
    RunIsFilterOfFetched(api, p, owner, w, 0);
    FilterWindowSubseq(Gather(api, p, owner, w, 0, true), w);
    SubseqMembers(FilterWindow(Gather(api, p, owner, w, 0, true), w), Gather(api, p, owner, w, 0, true));
  }

  /** The remote source never answers a page request with an error. */
  predicate NoPageErrors(api: Api, resource: Resource, owner: int)
  {
    forall j :: 0 <= j < |PagesOf(api, resource, owner)| ==> PagesOf(api, resource, owner)[j].Page?
  }

  /** Dates never increase along the sequence (newest first). */
  predicate NewestFirst(s: seq<Item>)
  {
    forall i, j :: 0 <= i < j < |s| ==> DateOf(s[i]) >= DateOf(s[j])
  }

  /** Completeness: when the loop swallows fetch errors or the source
      answers every page, and the source enumerates its items newest first,
      the early stop loses nothing: the result is exactly the window filter
      of everything the loop enumerates. */
  lemma NewestFirstComplete(api: Api, p: Policy, owner: int, w: Window)
    requires p.swallowFetchErrors || NoPageErrors(api, p.resource, owner)
    requires NewestFirst(Gather(api, p, owner, w, 0, false))
    ensures RunFrom(api, p, owner, w, 0).result == Ok(FilterWindow(Gather(api, p, owner, w, 0, false), w))
  {
    var t := Steps(api, p, owner, w);
    var adv := AdvTable(api, p, owner, w, false);
    var e := PageItemsTable(api, p, owner);
    forall j | 0 <= j < |t| ensures CompleteStep(t[j], adv[j], e[j], w) {
      StepWithoutErrors(api, p, owner, w, j);
    }
    GatherTable(api, p, owner, w, 0, false);
    RunFromTable(api, p, owner, w, 0);
    TableComplete(t, adv, e, w, 0);
  }

  /** An iteration that cannot raise, appends the filter of its page, and
      when it stops although the count would let it go on, stops early: its
      page's last item is older than a truthy `date_from`. */
  predicate CompleteStep(s: PageRun, adv: bool, e: seq<Item>, w: Window)
  {
    s.batch == FilterWindow(e, w) && !s.next.Raise? && (s.next.Advance? ==> adv) &&
    (adv && !s.next.Advance? ==> Truthy(w.from) && e != [] && DateOf(e[|e| - 1]) < w.from.value)
  }

  lemma StepWithoutErrors(api: Api, p: Policy, owner: int, w: Window, j: nat)
    requires p.swallowFetchErrors || NoPageErrors(api, p.resource, owner)
    requires j <= |PagesOf(api, p.resource, owner)|
    ensures CompleteStep(PageStep(api, p, owner, w, j), Advances(api, p, owner, w, j, false), PageItems(api, p, owner, j), w)
  {
    var reply := FetchAt(api, p.resource, owner, j * PageSize);
    assert j * PageSize / PageSize == j;
    if reply.PageError? {
      assert FilterWindow([], w) == [];
    } else if Advances(api, p, owner, w, j, false) && StopsEarly(reply.items, w) {
      EnrichedKeeps(api, p, owner, reply.items);
    }
  }

  lemma NewestFirstSuffix(now: seq<Item>, later: seq<Item>)
    requires NewestFirst(now + later)
    ensures NewestFirst(later)
  {
    forall i, j | 0 <= i < j < |later| ensures DateOf(later[i]) >= DateOf(later[j]) {
      assert (now + later)[|now| + i] == later[i];
      assert (now + later)[|now| + j] == later[j];
    }
  }

  /** Behind a page whose last item is older than a truthy `date_from`, a
      newest-first stream holds nothing inside the window. */
  lemma OlderSuffix(now: seq<Item>, later: seq<Item>, w: Window)
    requires NewestFirst(now + later)
    requires Truthy(w.from) && now != [] && DateOf(now[|now| - 1]) < w.from.value
    ensures FilterWindow(later, w) == []
  {
    forall j | 0 <= j < |later| ensures DateOf(later[j]) < w.from.value {
      assert (now + later)[|now| - 1] == now[|now| - 1];
      assert (now + later)[|now| + j] == later[j];
    }
    FilterAllOlder(later, w);
  }

  lemma {:induction false} TableComplete(t: seq<PageRun>, adv: seq<bool>, e: seq<seq<Item>>, w: Window, k: nat)
    requires k < |t| == |adv| == |e|
    requires forall j :: 0 <= j < |t| ==> CompleteStep(t[j], adv[j], e[j], w)
    requires NewestFirst(GatherOf(adv, e, k))
    ensures RunOf(t, k).result == Ok(FilterWindow(GatherOf(adv, e, k), w))
    decreases |t| - k
  {
    assert CompleteStep(t[k], adv[k], e[k], w);
    if adv[k] && k + 1 < |t| {
      var now := e[k];
      var later := GatherOf(adv, e, k + 1);
      assert GatherOf(adv, e, k) == now + later;
      FilterWindowConcat(now, later, w);
      if t[k].next.Advance? {
        NewestFirstSuffix(now, later);
        TableComplete(t, adv, e, w, k + 1);
      } else {
        OlderSuffix(now, later, w);
        assert FilterWindow(now, w) + [] == FilterWindow(now, w);
      }
    } else {
      assert GatherOf(adv, e, k) == e[k] + [] == e[k];
    }
  }

  // ---------------------------------------------------------------------
  // The loop over a table of iterations

  /** The items gathered from a table of per-page items, going on past
      page k when `adv[k]` holds. */
  function GatherOf(adv: seq<bool>, items: seq<seq<Item>>, k: nat): seq<Item>
    requires k < |adv| == |items|
    decreases |adv| - k
  {
    items[k] + if adv[k] && k + 1 < |adv| then GatherOf(adv, items, k + 1) else []
  }

  /** Which of pages 0 .. n the loop goes on from, with or without the early
      stop. */
  function AdvTable(api: Api, p: Policy, owner: int, w: Window, early: bool): (r: seq<bool>)
    ensures |r| == |PagesOf(api, p.resource, owner)| + 1
    ensures forall j :: 0 <= j < |r| ==> r[j] == Advances(api, p, owner, w, j, early)
  {
    seq(|PagesOf(api, p.resource, owner)| + 1, j requires 0 <= j => Advances(api, p, owner, w, j, early))
  }

  /** A table's iterations advance exactly where `adv` says. */
  predicate AdvancesAt(t: seq<PageRun>, adv: seq<bool>)
  {
    |t| == |adv| && forall j :: 0 <= j < |t| ==> (t[j].next.Advance? <==> adv[j])
  }

  lemma StepsAdvance(api: Api, p: Policy, owner: int, w: Window)
    ensures AdvancesAt(Steps(api, p, owner, w), AdvTable(api, p, owner, w, true))
  {
  }

  /** The enriched items of pages 0 .. n. */
  function PageItemsTable(api: Api, p: Policy, owner: int): (r: seq<seq<Item>>)
    ensures |r| == |PagesOf(api, p.resource, owner)| + 1
    ensures forall j :: 0 <= j < |r| ==> r[j] == PageItems(api, p, owner, j)
  {
    seq(|PagesOf(api, p.resource, owner)| + 1, j requires 0 <= j => PageItems(api, p, owner, j))
  }

  lemma {:induction false} GatherTable(api: Api, p: Policy, owner: int, w: Window, k: nat, early: bool)
    requires k <= |PagesOf(api, p.resource, owner)|
    ensures Gather(api, p, owner, w, k, early) == GatherOf(AdvTable(api, p, owner, w, early), PageItemsTable(api, p, owner), k)
    decreases |PagesOf(api, p.resource, owner)| - k
  {
    var adv := AdvTable(api, p, owner, w, early);
    var items := PageItemsTable(api, p, owner);
    assert adv[k] == Advances(api, p, owner, w, k, early);
    assert items[k] == PageItems(api, p, owner, k);
    if adv[k] {
      GatherTable(api, p, owner, w, k + 1, early);
      assert GatherOf(adv, items, k) == items[k] + GatherOf(adv, items, k + 1);
    } else {
      assert GatherOf(adv, items, k) == items[k] + [];
    }
  }

  /** Every iteration of the table requests its own page and pauses nowhere. */
  predicate OnePagePerStep(t: seq<PageRun>)
  {
    forall j :: 0 <= j < |t| ==> PageFetches(t[j].calls) == [j * PageSize] && Pauses(t[j].calls) == 0
  }

  lemma StepsTrace(api: Api, p: Policy, owner: int, w: Window)
    ensures OnePagePerStep(Steps(api, p, owner, w))
  {
    var t := Steps(api, p, owner, w);
    forall j | 0 <= j < |t| ensures PageFetches(t[j].calls) == [j * PageSize] && Pauses(t[j].calls) == 0 {
      PageStepTrace(api, p, owner, w, j);
    }
  }

  lemma {:induction false} TableSchedule(t: seq<PageRun>, k: nat)
    requires k < |t|
    requires OnePagePerStep(t)
    ensures Scheduled(RunOf(t, k).calls, k, |t| - k)
    decreases |t| - k
  {
    if t[k].next.Advance? && k + 1 < |t| {
      TableSchedule(t, k + 1);
      ScheduleStep(t[k].calls, RunOf(t, k + 1).calls, k, |t| - k - 1);
    }
  }

  lemma {:induction false} TableStopIsFinal(t: seq<PageRun>, k: nat, j: nat)
    requires k <= j < |t|
    requires OnePagePerStep(t)
    requires !t[j].next.Advance?
    ensures forall o :: o in PageFetches(RunOf(t, k).calls) ==> o <= j * PageSize
    decreases j - k
  {
    if t[k].next.Advance? && k + 1 < |t| {
      TableStopIsFinal(t, k + 1, j);
      FetchesConcat(t[k].calls, [Pause]);
      FetchesConcat(t[k].calls + [Pause], RunOf(t, k + 1).calls);
    }
  }

  lemma {:induction false} TableReach(t: seq<PageRun>, adv: seq<bool>, ids: seq<seq<Item>>, k: nat)
    requires k < |t| == |ids|
    requires AdvancesAt(t, adv)
    requires forall j :: 0 <= j < |t| ==> ReachIds(t[j].calls) == Ids(ids[j])
    ensures ReachIds(RunOf(t, k).calls) == Ids(GatherOf(adv, ids, k))
    decreases |t| - k
  {
    if t[k].next.Advance? && k + 1 < |t| {
      TableReach(t, adv, ids, k + 1);
      ReachAdvance(t, adv, ids, k);
    } else {
      ReachStop(t, adv, ids, k);
    }
  }

  /** The inductive step of `TableReach`: page k advances. */
  lemma ReachAdvance(t: seq<PageRun>, adv: seq<bool>, ids: seq<seq<Item>>, k: nat)
    requires k + 1 < |t| == |ids|
    requires AdvancesAt(t, adv)
    requires forall j :: 0 <= j < |t| ==> ReachIds(t[j].calls) == Ids(ids[j])
    requires t[k].next.Advance?
    requires ReachIds(RunOf(t, k + 1).calls) == Ids(GatherOf(adv, ids, k + 1))
    ensures ReachIds(RunOf(t, k).calls) == Ids(GatherOf(adv, ids, k))
  {
    assert adv[k];
    assert ReachIds(t[k].calls) == Ids(ids[k]);
    ReachStep(t[k].calls, RunOf(t, k + 1).calls, ids[k], GatherOf(adv, ids, k + 1));
    assert RunOf(t, k).calls == t[k].calls + [Pause] + RunOf(t, k + 1).calls;
    assert GatherOf(adv, ids, k) == ids[k] + GatherOf(adv, ids, k + 1);
  }

  /** The last step of `TableReach`: page k ends the loop. */
  lemma ReachStop(t: seq<PageRun>, adv: seq<bool>, ids: seq<seq<Item>>, k: nat)
    requires k < |t| == |ids|
    requires AdvancesAt(t, adv)
    requires forall j :: 0 <= j < |t| ==> ReachIds(t[j].calls) == Ids(ids[j])
    requires !(t[k].next.Advance? && k + 1 < |t|)
    ensures ReachIds(RunOf(t, k).calls) == Ids(GatherOf(adv, ids, k))
  {
    assert t[k].next.Advance? == adv[k];
    assert ReachIds(t[k].calls) == Ids(ids[k]);
    assert RunOf(t, k).calls == t[k].calls;
    assert GatherOf(adv, ids, k) == ids[k] + [] == ids[k];
  }

  lemma ReachStep(first: seq<Call>, rest: seq<Call>, a: seq<Item>, b: seq<Item>)
    requires ReachIds(first) == Ids(a) && ReachIds(rest) == Ids(b)
    ensures ReachIds(first + [Pause] + rest) == Ids(a + b)
  {
    var fp := first + [Pause];
    ReachIdsConcat(first, [Pause]);
    assert [Pause][1..] == [];
    assert ReachIds([Pause]) == [];
    assert ReachIds(fp) == Ids(a);
    ReachIdsConcat(fp, rest);
    IdsConcat(a, b);
  }

  lemma {:induction false} TableErrors(t: seq<PageRun>, k: nat)
    requires k < |t|
    requires OnePagePerStep(t)
    ensures (forall j :: k <= j < |t| ==> !t[j].next.Raise?) ==> RunOf(t, k).result.Ok?
    ensures RunOf(t, k).result.Err? ==>
      exists j :: k <= j < |t| && t[j].next == Raise(RunOf(t, k).result.error) &&
        |t[j].calls| > 0 && |RunOf(t, k).calls| > 0 &&
        RunOf(t, k).calls[|RunOf(t, k).calls| - 1] == t[j].calls[|t[j].calls| - 1]
    decreases |t| - k
  {
    if t[k].next.Advance? && k + 1 < |t| {
      TableErrors(t, k + 1);
      var c := t[k].calls + [Pause] + RunOf(t, k + 1).calls;
      if RunOf(t, k + 1).result.Err? {
        assert c[|c| - 1] == RunOf(t, k + 1).calls[|RunOf(t, k + 1).calls| - 1];
      }
    } else if t[k].next.Raise? {
      assert PageFetches(t[k].calls) != [];
    }
  }

  // ---------------------------------------------------------------------
  // Remote calls

  /** A trace requests pages at offsets 100 * k, 100 * (k + 1), ... in
      order, at least one and at most `most`, with a pause between each two. */
  predicate Scheduled(calls: seq<Call>, k: nat, most: nat)
  {
    1 <= |PageFetches(calls)| <= most &&
    (forall j :: 0 <= j < |PageFetches(calls)| ==> PageFetches(calls)[j] == (k + j) * PageSize) &&
    Pauses(calls) == |PageFetches(calls)| - 1
  }

  lemma ScheduleStep(first: seq<Call>, rest: seq<Call>, k: nat, most: nat)
    requires PageFetches(first) == [k * PageSize] && Pauses(first) == 0
    requires Scheduled(rest, k + 1, most)
    ensures Scheduled(first + [Pause] + rest, k, most + 1)
  {
    TraceConcat(first, [Pause]);
    TraceConcat(first + [Pause], rest);
    var f := PageFetches(first + [Pause] + rest);
    assert f == [k * PageSize] + PageFetches(rest);
    forall j | 0 <= j < |f| ensures f[j] == (k + j) * PageSize {
      if j > 0 {
        assert f[j] == PageFetches(rest)[j - 1];
      }
    }
  }

  /** The fetch schedule: page requests at offsets 0, 100, 200, ... in order,
      at least one and at most one past the pages the source holds, with one
      pause per page advance. */
  lemma FetchSchedule(api: Api, p: Policy, owner: int, w: Window)
    ensures Scheduled(RunFrom(api, p, owner, w, 0).calls, 0, |PagesOf(api, p.resource, owner)| + 1)
  {
    RunFromTable(api, p, owner, w, 0);
    StepsTrace(api, p, owner, w);
    TableSchedule(Steps(api, p, owner, w), 0);
  }

  /** Page j ends the loop: its fetch fails, it is empty (where an empty page
      stops), it reaches back before a truthy `date_from`, or
      `offset + 100 >= count`. */
  predicate Stops(api: Api, p: Policy, owner: int, w: Window, j: nat)
  {
    match FetchAt(api, p.resource, owner, j * PageSize)
    case PageError(_) => true
    case Page(items, count) =>
      (p.stopOnEmpty && items == []) || StopsEarly(items, w) || j * PageSize + PageSize >= count
  }

  /** No page past a stopping page is ever requested. */
  lemma StopIsFinal(api: Api, p: Policy, owner: int, w: Window, j: nat)
    requires Stops(api, p, owner, w, j)
    ensures forall o :: o in PageFetches(RunFrom(api, p, owner, w, 0).calls) ==> o <= j * PageSize
  {
    var n := |PagesOf(api, p.resource, owner)|;
    var t := Steps(api, p, owner, w);
    RunFromTable(api, p, owner, w, 0);
    StepsTrace(api, p, owner, w);
    if j <= n {
      assert !Advances(api, p, owner, w, j, true);
      TableStopIsFinal(t, 0, j);
    } else {
      TableSchedule(t, 0);
      var f := PageFetches(RunOf(t, 0).calls);
      forall o | o in f ensures o <= j * PageSize {
        var i :| 0 <= i < |f| && f[i] == o;
        assert o == i * PageSize;
      }
    }
  }

  /** Enrichment precedes the window filter: the statistics requests cover
      the ids of every fetched post, including those the window drops, in
      fetch order; without enrichment there are none. */
  lemma ReachCoverage(api: Api, p: Policy, owner: int, w: Window)
    ensures ReachIds(RunFrom(api, p, owner, w, 0).calls)
         == if p.enrich.NoReach? then [] else Ids(Gather(api, p, owner, w, 0, true))
  {
    var t := Steps(api, p, owner, w);
    var items := PageItemsTable(api, p, owner);
    var ids := if p.enrich.NoReach? then seq(|t|, _ => []) else items;
    forall j | 0 <= j < |t| ensures ReachIds(t[j].calls) == Ids(ids[j]) {
      PageStepTrace(api, p, owner, w, j);
      var reply := FetchAt(api, p.resource, owner, j * PageSize);
      if reply.Page? && !(p.stopOnEmpty && reply.items == []) {
        EnrichedIds(api, p, owner, reply.items);
      }
    }
    var adv := AdvTable(api, p, owner, w, true);
    RunFromTable(api, p, owner, w, 0);
    StepsAdvance(api, p, owner, w);
    TableReach(t, adv, ids, 0);
    if p.enrich.NoReach? {
      EmptyGather(adv, ids, 0);
    } else {
      GatherTable(api, p, owner, w, 0, true);
    }
  }

  lemma {:induction false} EmptyGather(adv: seq<bool>, ids: seq<seq<Item>>, k: nat)
    requires k < |adv| == |ids|
    requires forall j :: 0 <= j < |ids| ==> ids[j] == []
    ensures Ids(GatherOf(adv, ids, k)) == []
    decreases |adv| - k
  {
    if adv[k] && k + 1 < |adv| {
      EmptyGather(adv, ids, k + 1);
      assert GatherOf(adv, ids, k) == GatherOf(adv, ids, k + 1);
    }
  }

  /** A swallowed fetch error never fails the collector; a propagated one is
      the error of the last call, a page request that the source answered
      with that error. */
  lemma FetchErrors(api: Api, p: Policy, owner: int, w: Window)
    ensures p.swallowFetchErrors ==> RunFrom(api, p, owner, w, 0).result.Ok?
    ensures RunFrom(api, p, owner, w, 0).result.Err? ==>
      var calls := RunFrom(api, p, owner, w, 0).calls;
      |calls| > 0 && calls[|calls| - 1].FetchPage? && calls[|calls| - 1].offset >= 0 &&
      FetchAt(api, p.resource, owner, calls[|calls| - 1].offset) == PageError(RunFrom(api, p, owner, w, 0).result.error)
  {
    var t := Steps(api, p, owner, w);
    RunFromTable(api, p, owner, w, 0);
    StepsTrace(api, p, owner, w);
    TableErrors(t, 0);
    if RunOf(t, 0).result.Err? {
      var j :| 0 <= j < |t| && t[j].next == Raise(RunOf(t, 0).result.error) &&
        |t[j].calls| > 0 && |RunOf(t, 0).calls| > 0 &&
        RunOf(t, 0).calls[|RunOf(t, 0).calls| - 1] == t[j].calls[|t[j].calls| - 1];
      RaiseStep(api, p, owner, w, j);
    }
  }

  /** Pages 0 .. j - 1 let the loop go on, and the source answers page j
      with an error. */
  predicate ReachesError(api: Api, p: Policy, owner: int, w: Window, j: nat)
  {
    (forall i :: 0 <= i < j ==> Advances(api, p, owner, w, i, true)) &&
    FetchAt(api, p.resource, owner, j * PageSize).PageError?
  }

  /** A loop that does not swallow fetch errors and reaches a failing page
      fails with that page's error; the pages gathered before it are lost. */
  lemma ErrorPropagates(api: Api, p: Policy, owner: int, w: Window, j: nat)
    requires !p.swallowFetchErrors
    requires ReachesError(api, p, owner, w, j)
    ensures RunFrom(api, p, owner, w, 0).result == Err(FetchAt(api, p.resource, owner, j * PageSize).message)
  {
    var t := Steps(api, p, owner, w);
    if j > 0 {
      assert Advances(api, p, owner, w, j - 1, true);
    }
    assert t[j] == PageStep(api, p, owner, w, j);
    forall i | 0 <= i < j ensures t[i].next.Advance? {
      assert Advances(api, p, owner, w, i, true);
      assert t[i] == PageStep(api, p, owner, w, i);
    }
    RunFromTable(api, p, owner, w, 0);
    TableRaises(t, 0, j);
  }

  /** Every reached failing page fails a loop that does not swallow fetch
      errors, with its own error. */
  lemma ErrorsPropagate(api: Api, p: Policy, owner: int, w: Window)
    requires !p.swallowFetchErrors
    ensures forall j: nat :: ReachesError(api, p, owner, w, j) ==>
      RunFrom(api, p, owner, w, 0).result == Err(FetchAt(api, p.resource, owner, j * PageSize).message)
  {
    forall j: nat | ReachesError(api, p, owner, w, j)
      ensures RunFrom(api, p, owner, w, 0).result == Err(FetchAt(api, p.resource, owner, j * PageSize).message)
    {
      ErrorPropagates(api, p, owner, w, j);
    }
  }

  lemma {:induction false} TableRaises(t: seq<PageRun>, k: nat, j: nat)
    requires k <= j < |t|
    requires forall i :: k <= i < j ==> t[i].next.Advance?
    requires t[j].next.Raise?
    ensures RunOf(t, k).result == Err(t[j].next.message)
    decreases j - k
  {
    if k < j {
      TableRaises(t, k + 1, j);
      assert RunOf(t, k).result == Then(t[k].batch, RunOf(t, k + 1).result);
    }
  }

  /** An iteration that raises made a single page request, which the source
      answered with that error. */
  lemma RaiseStep(api: Api, p: Policy, owner: int, w: Window, j: nat)
    requires PageStep(api, p, owner, w, j).next.Raise?
    ensures PageStep(api, p, owner, w, j).calls == [FetchPage(p.resource, owner, j * PageSize)]
    ensures FetchAt(api, p.resource, owner, j * PageSize) == PageError(PageStep(api, p, owner, w, j).next.message)
  {
  }

  lemma {:induction false} TableGoesOn(t: seq<PageRun>, k: nat, j: nat)
    requires k <= j && j + 1 < |t|
    requires OnePagePerStep(t)
    requires forall i :: k <= i <= j ==> t[i].next.Advance?
    ensures (j + 1) * PageSize in PageFetches(RunOf(t, k).calls)
    decreases j - k
  {
    FetchesConcat(t[k].calls, [Pause]);
    FetchesConcat(t[k].calls + [Pause], RunOf(t, k + 1).calls);
    if k < j {
      TableGoesOn(t, k + 1, j);
    } else {
      assert RunOf(t, k + 1) == RunOf(t, j + 1);
      TableSchedule(t, j + 1);
      assert PageFetches(RunOf(t, j + 1).calls)[0] == (j + 1) * PageSize;
    }
  }

  /** Conversely, while no page stops the loop, the next page is requested:
      if none of pages 0 .. j stops, page j + 1 is fetched. */
  lemma GoesOn(api: Api, p: Policy, owner: int, w: Window, j: nat)
    requires forall i :: 0 <= i <= j ==> !Stops(api, p, owner, w, i)
    ensures (j + 1) * PageSize in PageFetches(RunFrom(api, p, owner, w, 0).calls)
  {
    var t := Steps(api, p, owner, w);
    assert !Stops(api, p, owner, w, j);
    assert Advances(api, p, owner, w, j, true);
    forall i | 0 <= i <= j ensures t[i].next.Advance? {
      assert !Stops(api, p, owner, w, i);
      assert Advances(api, p, owner, w, i, true);
    }
    RunFromTable(api, p, owner, w, 0);
    StepsTrace(api, p, owner, w);
    TableGoesOn(t, 0, j);
  }

  /** An empty page ends a loop that stops on empty pages without any
      statistics request and adds nothing. */
  lemma EmptyPageStops(api: Api, p: Policy, owner: int, w: Window, k: nat)
    requires p.stopOnEmpty
    requires FetchAt(api, p.resource, owner, k * PageSize).Page?
    requires FetchAt(api, p.resource, owner, k * PageSize).items == []
    ensures RunFrom(api, p, owner, w, k) == Run(Ok([]), [FetchPage(p.resource, owner, k * PageSize)])
  {
    assert Chunks(Ids([])) == [];
    assert PageStep(api, p, owner, w, k).calls == [FetchPage(p.resource, owner, k * PageSize)];
  }

  /** Without truthy bounds (the standalone script) the result is every
      fetched item, in fetch order. */
  lemma {:induction false} UnboundedCollectsAll(api: Api, p: Policy, owner: int, w: Window, k: nat)
    requires !Truthy(w.from) && !Truthy(w.to)
    ensures RunFrom(api, p, owner, w, k).result.Ok? ==>
      RunFrom(api, p, owner, w, k).result.value == Gather(api, p, owner, w, k, false)
  {
    RunIsFilterOfFetched(api, p, owner, w, k);
    GatherWithoutEarlyStop(api, p, owner, w, k);
    FilterUnbounded(Gather(api, p, owner, w, k, true), w);
  }

  lemma {:induction false} GatherWithoutEarlyStop(api: Api, p: Policy, owner: int, w: Window, k: nat)
    requires !Truthy(w.from)
    ensures Gather(api, p, owner, w, k, true) == Gather(api, p, owner, w, k, false)
    decreases |PagesOf(api, p.resource, owner)| - k
  {
    if PageStep(api, p, owner, w, k).next.Advance? {
      GatherWithoutEarlyStop(api, p, owner, w, k + 1);
    }
  }
}
