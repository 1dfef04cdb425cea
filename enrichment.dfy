/** Reach enrichment of one page of posts (back/services/vk_data.py:47-62,
    test/all.py:89-103): the page's post ids are split into chunks of at most
    30, the statistics call is made per chunk, a failed chunk is replaced by
    placeholders, and the concatenated statistics are attached to the posts
    by position. */
module Enrichment {
  import opened Wrappers
  import opened Remote

  /** Largest number of post ids per statistics request. */
  const ChunkSize: nat := 30

  function Min(a: int, b: int): int
  {
    if a <= b then a else b
  }

  /** `[item["id"] for item in items]` */
  function Ids(items: seq<Item>): (ids: seq<int>)
    ensures |ids| == |items|
    ensures forall i :: 0 <= i < |items| ==> ids[i] == items[i].id
  {
    if items == [] then [] else [items[0].id] + Ids(items[1..])
  }

  lemma {:induction false} IdsConcat(a: seq<Item>, b: seq<Item>)
    ensures Ids(a + b) == Ids(a) + Ids(b)
  {
    assert Ids(a + b) == Ids(a) + Ids(b) by {
      assert |Ids(a + b)| == |Ids(a) + Ids(b)|;
      forall i | 0 <= i < |a + b| ensures Ids(a + b)[i] == (Ids(a) + Ids(b))[i] {
        if i < |a| {
          assert (a + b)[i] == a[i];
        } else {
          assert (a + b)[i] == b[i - |a|];
        }
      }
    }
  }

  /** `post_ids[i:i+30]` for i = 0, 30, 60, ... below len(post_ids). */
  function Chunks(ids: seq<int>): seq<seq<int>>
    decreases |ids|
  {
    if ids == [] then [] else
      var n := Min(ChunkSize, |ids|);
      [ids[..n]] + Chunks(ids[n..])
  }

  /** Concatenation of a list of id lists. */
  function Flatten(cs: seq<seq<int>>): seq<int>
  {
    if cs == [] then [] else cs[0] + Flatten(cs[1..])
  }

  /** The chunks are consecutive, cover every id exactly once in order, are
      non-empty and of at most 30 ids, all but the last have exactly 30, and
      there are exactly ceil(n / 30) of them (one statistics call each). */
  lemma {:induction false} ChunksPartition(ids: seq<int>)
    ensures Flatten(Chunks(ids)) == ids
    ensures |Chunks(ids)| == (|ids| + ChunkSize - 1) / ChunkSize
    ensures forall j :: 0 <= j < |Chunks(ids)| ==> 0 < |Chunks(ids)[j]| <= ChunkSize
    ensures forall j :: 0 <= j < |Chunks(ids)| - 1 ==> |Chunks(ids)[j]| == ChunkSize
    decreases |ids|
  {
    if ids != [] {
      var n := Min(ChunkSize, |ids|);
      ChunksPartition(ids[n..]);
      assert ids[..n] + ids[n..] == ids;
      var cs := Chunks(ids);
      assert cs == [ids[..n]] + Chunks(ids[n..]);
      forall j | 0 <= j < |cs| ensures 0 < |cs[j]| <= ChunkSize {
        if j > 0 {
          assert cs[j] == Chunks(ids[n..])[j - 1];
        }
      }
      forall j | 0 <= j < |cs| - 1 ensures |cs[j]| == ChunkSize {
        if j > 0 {
          assert cs[j] == Chunks(ids[n..])[j - 1];
        } else {
          assert |Chunks(ids[n..])| > 0;
        }
      }
    }
  }

  /** Chunk j is the slice of ids starting at 30 * j. */
  lemma {:induction false} ChunkAt(ids: seq<int>, j: nat)
    requires j < |Chunks(ids)|
    ensures j * ChunkSize < |ids|
    ensures Chunks(ids)[j] == ids[j * ChunkSize .. Min(j * ChunkSize + ChunkSize, |ids|)]
    decreases |ids|
  {
    var n := Min(ChunkSize, |ids|);
    if j > 0 {
      ChunkAt(ids[n..], j - 1);
      assert n == ChunkSize by {
        ChunksPartition(ids);
      }
      assert Chunks(ids)[j] == Chunks(ids[n..])[j - 1];
      assert ids[n..][(j - 1) * ChunkSize .. Min((j - 1) * ChunkSize + ChunkSize, |ids| - n)]
          == ids[j * ChunkSize .. Min(j * ChunkSize + ChunkSize, |ids|)];
    }
  }

  /** What the backend and the script substitute for a failed chunk. */
  datatype Fallback = EmptyCounters | ErrorNotes

  /** `{}` for the backend, `{"error": message}` for the script. */
  function Placeholder(fb: Fallback, message: string): Reach
  {
    match fb
    case EmptyCounters => Counters(map[])
    case ErrorNotes => ErrorNote(message)
  }

  /** `stats_chunk`: the reply's list, or one placeholder per id of the chunk. */
  function ChunkStats(reply: ReachReply, chunk: seq<int>, fb: Fallback): seq<Reach>
  {
    match reply
    case ReachList(s) => s
    case ReachFailed(m) => seq(|chunk|, _ => Placeholder(fb, m))
  }

  /** `post_stats_all` for a list of chunks: the chunk results concatenated. */
  function StatsOf(api: Api, owner: int, cs: seq<seq<int>>, fb: Fallback): seq<Reach>
  {
    if cs == [] then [] else
      ChunkStats(api.postReach(owner, cs[0]), cs[0], fb) + StatsOf(api, owner, cs[1..], fb)
  }

  /** `post_stats_all` for the ids of one page. */
  function StatsAll(api: Api, owner: int, ids: seq<int>, fb: Fallback): seq<Reach>
  {
    StatsOf(api, owner, Chunks(ids), fb)
  }

  /** The statistics requests, one per chunk, in chunk order. */
  function ReachCalls(owner: int, cs: seq<seq<int>>): seq<Call>
  {
    if cs == [] then [] else [FetchReach(owner, cs[0])] + ReachCalls(owner, cs[1..])
  }

  /** The oracle answers each chunk of this page either with a failure or
      with exactly one record per requested id. */
  predicate Aligned(api: Api, owner: int, ids: seq<int>)
  {
    forall c :: c in Chunks(ids) ==> (api.postReach(owner, c).ReachList? ==> |api.postReach(owner, c).stats| == |c|)
  }

  /** The chunk that position i of the ids falls into. */
  function ChunkOf(ids: seq<int>, i: nat): seq<int>
    requires i < |ids|
  {
    ids[(i / ChunkSize) * ChunkSize .. Min((i / ChunkSize) * ChunkSize + ChunkSize, |ids|)]
  }

  /** Position i past the first chunk falls into the chunk of position
      i - 30 of the remaining ids. */
  lemma ChunkOfShift(ids: seq<int>, i: nat)
    requires ChunkSize <= i < |ids|
    ensures ChunkOf(ids[ChunkSize..], i - ChunkSize) == ChunkOf(ids, i)
  {
    var q := i / ChunkSize;
    assert (i - ChunkSize) / ChunkSize == q - 1;
    var lo := (q - 1) * ChunkSize;
    var hi := Min(lo + ChunkSize, |ids| - ChunkSize);
    assert lo + ChunkSize == q * ChunkSize;
    assert hi + ChunkSize == Min(q * ChunkSize + ChunkSize, |ids|);
    assert ids[ChunkSize..][lo..hi] == ids[lo + ChunkSize .. hi + ChunkSize];
  }

  /** Chunk isolation: when every chunk's answer is aligned, the statistics
      list has one record per id, and the record at position i comes from the
      reply to the chunk holding i, at i's place in that chunk; a failed chunk
      yields placeholders exactly at its own positions. */
  lemma {:induction false} AlignedStats(api: Api, owner: int, ids: seq<int>, fb: Fallback)
    requires Aligned(api, owner, ids)
    ensures |StatsAll(api, owner, ids, fb)| == |ids|
    ensures forall i :: 0 <= i < |ids| ==>
      i % ChunkSize < |ChunkStats(api.postReach(owner, ChunkOf(ids, i)), ChunkOf(ids, i), fb)| &&
      StatsAll(api, owner, ids, fb)[i]
        == ChunkStats(api.postReach(owner, ChunkOf(ids, i)), ChunkOf(ids, i), fb)[i % ChunkSize]
    ensures forall i :: 0 <= i < |ids| && api.postReach(owner, ChunkOf(ids, i)).ReachFailed? ==>
      StatsAll(api, owner, ids, fb)[i] == Placeholder(fb, api.postReach(owner, ChunkOf(ids, i)).message)
    decreases |ids|
  {
    if ids != [] {
      var n := Min(ChunkSize, |ids|);
      var c0 := ids[..n];
      var rest := ids[n..];
      assert Chunks(ids) == [c0] + Chunks(rest);
      assert Aligned(api, owner, rest) by {
        forall c | c in Chunks(rest) ensures c in Chunks(ids) { }
      }
      AlignedStats(api, owner, rest, fb);
      var s0 := ChunkStats(api.postReach(owner, c0), c0, fb);
      assert c0 in Chunks(ids);
      assert |s0| == n;
      assert StatsAll(api, owner, ids, fb) == s0 + StatsAll(api, owner, rest, fb);
      forall i | 0 <= i < |ids|
        ensures i % ChunkSize < |ChunkStats(api.postReach(owner, ChunkOf(ids, i)), ChunkOf(ids, i), fb)|
        ensures StatsAll(api, owner, ids, fb)[i]
          == ChunkStats(api.postReach(owner, ChunkOf(ids, i)), ChunkOf(ids, i), fb)[i % ChunkSize]
      {
        if i < n {
          FirstChunkStat(api, owner, ids, fb, i);
        } else {
          LaterChunkStat(api, owner, ids, fb, i);
        }
      }
      forall i | 0 <= i < |ids| && api.postReach(owner, ChunkOf(ids, i)).ReachFailed?
        ensures StatsAll(api, owner, ids, fb)[i] == Placeholder(fb, api.postReach(owner, ChunkOf(ids, i)).message)
      {
        PlaceholderAt(api.postReach(owner, ChunkOf(ids, i)), ChunkOf(ids, i), fb, i % ChunkSize);
      }
    }
  }

  /** A position in the first chunk takes its record from the first reply. */
  lemma FirstChunkStat(api: Api, owner: int, ids: seq<int>, fb: Fallback, i: nat)
    requires i < |ids| && i < ChunkSize
    requires var c0 := ids[..Min(ChunkSize, |ids|)];
      |ChunkStats(api.postReach(owner, c0), c0, fb)| == Min(ChunkSize, |ids|) &&
      StatsAll(api, owner, ids, fb)
        == ChunkStats(api.postReach(owner, c0), c0, fb) + StatsAll(api, owner, ids[Min(ChunkSize, |ids|)..], fb)
    ensures i % ChunkSize < |ChunkStats(api.postReach(owner, ChunkOf(ids, i)), ChunkOf(ids, i), fb)|
    ensures StatsAll(api, owner, ids, fb)[i]
         == ChunkStats(api.postReach(owner, ChunkOf(ids, i)), ChunkOf(ids, i), fb)[i % ChunkSize]
  {
    assert i / ChunkSize == 0 && i % ChunkSize == i;
    assert ChunkOf(ids, i) == ids[..Min(ChunkSize, |ids|)];
  }

  /** A position past the first chunk takes its record where the same
      position of the remaining ids does. */
  lemma LaterChunkStat(api: Api, owner: int, ids: seq<int>, fb: Fallback, i: nat)
    requires ChunkSize <= i < |ids|
    requires var c0 := ids[..ChunkSize];
      |ChunkStats(api.postReach(owner, c0), c0, fb)| == ChunkSize &&
      StatsAll(api, owner, ids, fb) == ChunkStats(api.postReach(owner, c0), c0, fb) + StatsAll(api, owner, ids[ChunkSize..], fb)
    requires var rest := ids[ChunkSize..]; var k := i - ChunkSize;
      |StatsAll(api, owner, rest, fb)| == |rest| &&
      k % ChunkSize < |ChunkStats(api.postReach(owner, ChunkOf(rest, k)), ChunkOf(rest, k), fb)| &&
      StatsAll(api, owner, rest, fb)[k] == ChunkStats(api.postReach(owner, ChunkOf(rest, k)), ChunkOf(rest, k), fb)[k % ChunkSize]
    ensures i % ChunkSize < |ChunkStats(api.postReach(owner, ChunkOf(ids, i)), ChunkOf(ids, i), fb)|
    ensures StatsAll(api, owner, ids, fb)[i]
         == ChunkStats(api.postReach(owner, ChunkOf(ids, i)), ChunkOf(ids, i), fb)[i % ChunkSize]
  {
    ChunkOfShift(ids, i);
    assert (i - ChunkSize) % ChunkSize == i % ChunkSize;
  }

  /** A failed chunk yields the placeholder at each of its positions. */
  lemma PlaceholderAt(reply: ReachReply, chunk: seq<int>, fb: Fallback, j: nat)
    requires reply.ReachFailed? && j < |ChunkStats(reply, chunk, fb)|
    ensures ChunkStats(reply, chunk, fb)[j] == Placeholder(fb, reply.message)
  {
  }

  /** zip(items, stats): the i-th post gets the i-th record; posts beyond the
      end of the statistics are left as they were. */
  function Attached(items: seq<Item>, stats: seq<Reach>): seq<Item>
  {
    if items == [] || stats == [] then items
    else [items[0].(reach := Some(stats[0]))] + Attached(items[1..], stats[1..])
  }

  /** Positional pairing: attachment keeps the length, gives post i record i
      when there is one and leaves every other key of every post unchanged. */
  lemma {:induction false} AttachedAt(items: seq<Item>, stats: seq<Reach>, i: nat)
    requires i < |items|
    ensures |Attached(items, stats)| == |items|
    ensures Attached(items, stats)[i] == if i < |stats| then items[i].(reach := Some(stats[i])) else items[i]
    decreases |items|
  {
    if stats != [] {
      if i > 0 {
        AttachedAt(items[1..], stats[1..], i - 1);
      } else {
        AttachedLength(items[1..], stats[1..]);
      }
    }
  }

  lemma {:induction false} AttachedLength(items: seq<Item>, stats: seq<Reach>)
    ensures |Attached(items, stats)| == |items|
    decreases |items|
  {
    if items != [] && stats != [] {
      AttachedLength(items[1..], stats[1..]);
    }
  }

  /** `for post_item, stat_item in zip(items, post_stats_all):
      post_item["stats_post_reach"] = stat_item`, on the page's posts in place. */
  method AttachReach(a: array<Item>, stats: seq<Reach>)
    modifies a
    ensures a[..] == Attached(old(a[..]), stats)
  {
    var n := Min(a.Length, |stats|);
    for i := 0 to n
      invariant forall j :: 0 <= j < i ==> a[j] == old(a[j]).(reach := Some(stats[j]))
      invariant forall j :: i <= j < a.Length ==> a[j] == old(a[j])
    {
      a[i] := a[i].(reach := Some(stats[i]));
    }
    ghost var was := old(a[..]);
    AttachedLength(was, stats);
    forall j | 0 <= j < a.Length ensures a[..][j] == Attached(was, stats)[j] {
      AttachedAt(was, stats, j);
    }
  }

  lemma ChunksFrom(ids: seq<int>, i: nat)
    requires i < |ids|
    ensures Chunks(ids[i..]) == [ids[i .. Min(i + ChunkSize, |ids|)]] + Chunks(ids[Min(i + ChunkSize, |ids|)..])
  {
    assert ids[i..][..Min(ChunkSize, |ids| - i)] == ids[i .. Min(i + ChunkSize, |ids|)];
    assert ids[i..][Min(ChunkSize, |ids| - i)..] == ids[Min(i + ChunkSize, |ids|)..];
  }

  /** The chunk loop of one page: one statistics request per chunk, failures
      replaced by placeholders, results concatenated in chunk order. */
  method FetchChunkStats(api: Api, owner: int, ids: seq<int>, fb: Fallback)
    returns (stats: seq<Reach>, calls: seq<Call>)
    ensures stats == StatsAll(api, owner, ids, fb)
    ensures calls == ReachCalls(owner, Chunks(ids))
  {
    stats, calls := [], [];
    var i := 0;
    ghost var todo := ids;
    while i < |ids|
      invariant 0 <= i
      invariant todo == ids[Min(i, |ids|)..]
      invariant stats + StatsOf(api, owner, Chunks(todo), fb) == StatsAll(api, owner, ids, fb)
      invariant calls + ReachCalls(owner, Chunks(todo)) == ReachCalls(owner, Chunks(ids))
      decreases |ids| - i
    {
      var chunk := ids[i .. Min(i + ChunkSize, |ids|)];
      ChunksFrom(ids, i);
      ghost var later := ids[Min(i + ChunkSize, |ids|)..];
      assert Chunks(todo) == [chunk] + Chunks(later);
      var reply := api.postReach(owner, chunk);
      calls := calls + [FetchReach(owner, chunk)];
      var chunkStats;
      match reply {
        case ReachList(s) =>
          chunkStats := s;
        case ReachFailed(m) =>
          chunkStats := seq(|chunk|, _ => Placeholder(fb, m));
      }
      assert chunkStats == ChunkStats(reply, chunk, fb);
      StepStats(api, owner, stats, chunk, later, fb);
      stats := stats + chunkStats;
      i := i + ChunkSize;
      todo := later;
    }
  }

  lemma StepStats(api: Api, owner: int, stats: seq<Reach>, chunk: seq<int>, later: seq<int>, fb: Fallback)
    ensures stats + StatsOf(api, owner, [chunk] + Chunks(later), fb)
         == (stats + ChunkStats(api.postReach(owner, chunk), chunk, fb)) + StatsOf(api, owner, Chunks(later), fb)
  {
    assert ([chunk] + Chunks(later))[1..] == Chunks(later);
  }

}
