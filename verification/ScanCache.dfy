/** The reorg-safe incremental `Locked`-log cache behind `sepolia_htlc_status`
    (lez-mcp/src/eth.rs).

    A chain is the sequence of its blocks, a block the sequence of its `Locked`
    logs. The provider answers every `eth_getLogs` from some view of the chain,
    or fails. The specification of a scan pass is a function on cache values;
    the class at the end updates the cache in place and is proved equal to it. */
module ScanCache {
  import opened Common

  const LOG_SCAN_CHUNK: nat := 40_000
  const MAX_CHUNKS_PER_CALL: nat := 16
  const REORG_SAFETY_WINDOW: nat := 64

  type Hash = nat

  datatype SeenLock = SeenLock(swapId: Hash, hashlock: Hash, block: nat, txHash: Hash, logIndex: nat) {
    predicate SameEvent(other: SeenLock) {
      txHash == other.txHash && logIndex == other.logIndex
    }
  }

  type Chain = seq<seq<SeenLock>>

  /** How the provider answers one `eth_getLogs`. */
  datatype Answer = Failed(error: string) | Served(view: Chain)

  datatype Cache = Cache(next: nat, locked: seq<SeenLock>)

  datatype ScanPass = ScanPass(matched: seq<Hash>, coverageTo: nat, reachedHead: bool)

  // ----- the chain -----

  /** The logs of blocks `[a, b)`, in chain order: what a full rescan reads. */
  function Logs(c: Chain, a: nat, b: nat): seq<SeenLock>
    requires b <= a || b <= |c|
  {
    if b <= a then [] else Logs(c, a, b - 1) + c[b - 1]
  }

  /** No two logs share both transaction hash and log index. */
  predicate Distinct(s: seq<SeenLock>) {
    forall i, j :: 0 <= i < j < |s| ==> !s[i].SameEvent(s[j])
  }

  /** Logs carry their own block number, and `(tx_hash, log_index)` identifies a log. */
  ghost predicate WellFormed(c: Chain) {
    && (forall k, l :: 0 <= k < |c| && l in c[k] ==> l.block == k)
    && Distinct(Logs(c, 0, |c|))
  }

  /** The two chains have the same blocks below `n`. */
  predicate Agree(c: Chain, d: Chain, n: int) {
    n <= 0 || (n <= |c| && n <= |d| && c[..n] == d[..n])
  }

  // ----- specification of the pass -----

  function Retain(s: seq<SeenLock>, keep: SeenLock -> bool): seq<SeenLock> {
    if s == [] then [] else
      Retain(s[..|s| - 1], keep) + (if keep(s[|s| - 1]) then [s[|s| - 1]] else [])
  }

  function IsBelow(n: int): SeenLock -> bool { (l: SeenLock) => l.block < n }

  function IsOutside(start: nat, end: nat): SeenLock -> bool {
    (l: SeenLock) => l.block < start || l.block > end
  }

  function RewindStart(next: nat, from: nat, window: nat): nat {
    Max(SatSub(next, window), from)
  }

  function AddFresh(base: seq<SeenLock>, news: seq<SeenLock>): seq<SeenLock>
    decreases news
  {
    if news == [] then base else
      var f := news[0];
      AddFresh(if exists l :: l in base && l.SameEvent(f) then base else base + [f], news[1..])
  }

  function Reconciled(locked: seq<SeenLock>, start: nat, end: nat, news: seq<SeenLock>): seq<SeenLock> {
    AddFresh(Retain(locked, IsOutside(start, end)), news)
  }

  function Pruned(c: Cache, latest: nat, from: nat): Cache {
    if latest < SatSub(c.next, 1) then
      Cache(Max(latest + 1, from), Retain(c.locked, IsBelow(latest + 1)))
    else c
  }

  function Fetch(view: Chain, start: nat, end: nat): seq<SeenLock> {
    Logs(view, Min(start, |view|), Min(end + 1, |view|))
  }

  function Commit(c: Cache, start: nat, end: nat, news: seq<SeenLock>): Cache {
    Cache(Max(end + 1, c.next), Reconciled(c.locked, start, end, news))
  }

  function ChunkEnd(start: nat, latest: nat): nat {
    Min(start + LOG_SCAN_CHUNK - 1, latest)
  }

  /** The chunk loop from its `used`-th request on: the cache it leaves and the
      error that stopped it, if any. */
  function Chunks(c: Cache, start: nat, latest: nat, used: nat, answers: nat -> Answer): (Cache, Option<string>)
    decreases MAX_CHUNKS_PER_CALL - used
  {
    if start <= latest && used < MAX_CHUNKS_PER_CALL then
      match answers(used)
      case Failed(e) => (c, Some(e))
      case Served(v) =>
        var end := ChunkEnd(start, latest);
        Chunks(Commit(c, start, end, Fetch(v, start, end)), end + 1, latest, used + 1, answers)
    else (c, None)
  }

  function Scan(c: Cache, from: nat, latest: nat, answers: nat -> Answer): (Cache, Option<string>) {
    var p := Pruned(c, latest, from);
    Chunks(p, RewindStart(p.next, from, REORG_SAFETY_WINDOW), latest, 0, answers)
  }

  /** Distinct swap ids carrying `hashlock`, in the order of their first log. */
  function Matches(s: seq<SeenLock>, hashlock: Hash): seq<Hash> {
    if s == [] then [] else
      var m := Matches(s[..|s| - 1], hashlock);
      var l := s[|s| - 1];
      if l.hashlock == hashlock && l.swapId !in m then m + [l.swapId] else m
  }

  // ----- facts about logs and filters -----

  lemma {:induction false} LogsSplit(c: Chain, a: nat, m: nat, b: nat)
    requires a <= m <= b <= |c|
    ensures Logs(c, a, m) + Logs(c, m, b) == Logs(c, a, b)
  {
    if m < b {
      LogsSplit(c, a, m, b - 1);
      assert Logs(c, a, m) + Logs(c, m, b) == (Logs(c, a, m) + Logs(c, m, b - 1)) + c[b - 1];
    }
  }

  lemma {:induction false} LogsBlocks(c: Chain, a: nat, b: nat, l: SeenLock)
    requires WellFormed(c)
    requires b <= a || b <= |c|
    requires l in Logs(c, a, b)
    ensures a <= l.block < b
  {
    if l !in c[b - 1] {
      LogsBlocks(c, a, b - 1, l);
    }
  }

  lemma {:induction false} LogsAgree(c: Chain, d: Chain, a: nat, b: nat)
    requires b <= a || (Agree(c, d, b) && b <= |c| && b <= |d|)
    ensures Logs(c, a, b) == Logs(d, a, b)
  {
    if a < b {
      assert c[b - 1] == c[..b][b - 1] == d[..b][b - 1] == d[b - 1];
      assert c[..b - 1] == c[..b][..b - 1] && d[..b - 1] == d[..b][..b - 1];
      LogsAgree(c, d, a, b - 1);
    }
  }

  lemma LogsDistinct(c: Chain, a: nat, b: nat)
    requires WellFormed(c) && a <= b <= |c|
    ensures Distinct(Logs(c, a, b))
  {
    LogsSplit(c, 0, a, b);
    LogsSplit(c, 0, b, |c|);
    DistinctInfix(Logs(c, 0, a), Logs(c, a, b), Logs(c, b, |c|));
  }

  lemma DistinctInfix(p: seq<SeenLock>, s: seq<SeenLock>, t: seq<SeenLock>)
    requires Distinct(p + s + t)
    ensures Distinct(s)
  {
    var all := p + s + t;
    forall i, j | 0 <= i < j < |s| ensures !s[i].SameEvent(s[j]) {
      assert all[|p| + i] == s[i] && all[|p| + j] == s[j];
    }
  }

  lemma {:induction false} RetainAll(s: seq<SeenLock>, keep: SeenLock -> bool)
    requires forall l :: l in s ==> keep(l)
    ensures Retain(s, keep) == s
  {
    if s != [] {
      RetainAll(s[..|s| - 1], keep);
      assert s == s[..|s| - 1] + [s[|s| - 1]];
    }
  }

  lemma {:induction false} RetainNone(s: seq<SeenLock>, keep: SeenLock -> bool)
    requires forall l :: l in s ==> !keep(l)
    ensures Retain(s, keep) == []
  {
    if s != [] {
      RetainNone(s[..|s| - 1], keep);
    }
  }

  lemma {:induction false} RetainConcat(s: seq<SeenLock>, t: seq<SeenLock>, keep: SeenLock -> bool)
    ensures Retain(s + t, keep) == Retain(s, keep) + Retain(t, keep)
  {
    if t == [] {
      assert s + t == s;
    } else {
      assert (s + t)[..|s + t| - 1] == s + t[..|t| - 1];
      RetainConcat(s, t[..|t| - 1], keep);
    }
  }

  lemma {:induction false} RetainMember(s: seq<SeenLock>, keep: SeenLock -> bool, l: SeenLock)
    ensures l in Retain(s, keep) <==> l in s && keep(l)
  {
    if s != [] {
      RetainMember(s[..|s| - 1], keep, l);
      assert s == s[..|s| - 1] + [s[|s| - 1]];
    }
  }

  /** Filtering twice is filtering by any predicate that agrees with both on the contents. */
  lemma {:induction false} RetainCompose(s: seq<SeenLock>, p: SeenLock -> bool, q: SeenLock -> bool,
                                         r: SeenLock -> bool)
    requires forall l :: l in s ==> (r(l) <==> p(l) && q(l))
    ensures Retain(Retain(s, p), q) == Retain(s, r)
  {
    if s != [] {
      var t, l := s[..|s| - 1], s[|s| - 1];
      RetainCompose(t, p, q, r);
      RetainConcat(Retain(t, p), if p(l) then [l] else [], q);
      assert [l][..0] == [];
      assert Retain([l], q) == Retain([], q) + (if q(l) then [l] else []);
    }
  }

  lemma {:induction false} RetainSame(s: seq<SeenLock>, p: SeenLock -> bool, q: SeenLock -> bool)
    requires forall l :: l in s ==> (p(l) <==> q(l))
    ensures Retain(s, p) == Retain(s, q)
  {
    if s != [] {
      RetainSame(s[..|s| - 1], p, q);
    }
  }

  /** Cached events below block `n`. */
  function Below(s: seq<SeenLock>, n: int): seq<SeenLock> {
    Retain(s, IsBelow(n))
  }

  lemma BelowLogs(c: Chain, a: nat, m: nat, b: nat)
    requires WellFormed(c) && a <= m <= b <= |c|
    ensures Below(Logs(c, a, b), m) == Logs(c, a, m)
  {
    var low, high := Logs(c, a, m), Logs(c, m, b);
    LogsSplit(c, a, m, b);
    RetainConcat(low, high, IsBelow(m));
    forall l | l in low ensures l.block < m { LogsBlocks(c, a, m, l); }
    forall l | l in high ensures !(l.block < m) { LogsBlocks(c, m, b, l); }
    RetainAll(low, IsBelow(m));
    RetainNone(high, IsBelow(m));
  }

  lemma {:induction false} AddFreshDistinct(base: seq<SeenLock>, news: seq<SeenLock>)
    requires Distinct(base + news)
    ensures AddFresh(base, news) == base + news
    decreases news
  {
    if news == [] {
      assert base + news == base;
    } else {
      var all := base + news;
      assert all[|base|] == news[0];
      forall l | l in base ensures !l.SameEvent(news[0]) {
        var i :| 0 <= i < |base| && base[i] == l;
        assert all[i] == l;
      }
      assert (base + [news[0]]) + news[1..] == all;
      AddFreshDistinct(base + [news[0]], news[1..]);
    }
  }

  /** Reconciliation only ever appends events of the news read. */
  lemma {:induction false} AddFreshMembers(base: seq<SeenLock>, news: seq<SeenLock>)
    ensures |base| <= |AddFresh(base, news)| && AddFresh(base, news)[..|base|] == base
    ensures forall l :: l in AddFresh(base, news)[|base|..] ==> l in news
    decreases news
  {
    if news != [] {
      var f := news[0];
      var base' := if exists l :: l in base && l.SameEvent(f) then base else base + [f];
      AddFreshMembers(base', news[1..]);
      var out := AddFresh(base', news[1..]);
      assert out[..|base|] == out[..|base'|][..|base|] == base;
      forall l | l in out[|base|..] ensures l in news {
        var i :| |base| <= i < |out| && out[i] == l;
        if i < |base'| {
          assert out[i] == out[..|base'|][i] == base'[i];
        } else {
          assert out[i] in out[|base'|..];
        }
      }
    }
  }

  /** Two events are one exactly if they share transaction and log index. */
  lemma TwoEvents(a: SeenLock, b: SeenLock)
    ensures AddFresh([], [a, b]) == if a.txHash == b.txHash && a.logIndex == b.logIndex then [a] else [a, b]
  {
    AddFreshOne([], a);
    AddFreshOne([a], b);
    AddFreshConcat([], [a], [b]);
    assert [a] + [b] == [a, b];
    assert a in [a];
  }

  /** Deduplication keeps a list without duplicates so. */
  lemma {:induction false} AddFreshStaysDistinct(base: seq<SeenLock>, news: seq<SeenLock>)
    requires Distinct(base)
    ensures Distinct(AddFresh(base, news))
    decreases news
  {
    if news != [] {
      var f := news[0];
      if !exists l :: l in base && l.SameEvent(f) {
        var all := base + [f];
        forall i, j | 0 <= i < j < |all| ensures !all[i].SameEvent(all[j]) { assert all[i] in base; }
        AddFreshStaysDistinct(all, news[1..]);
      } else {
        AddFreshStaysDistinct(base, news[1..]);
      }
    }
  }

  /** It drops nothing exactly if there was nothing to drop. */
  lemma AddFreshKeepsAllIff(base: seq<SeenLock>, news: seq<SeenLock>)
    requires Distinct(base)
    ensures AddFresh(base, news) == base + news <==> Distinct(base + news)
  {
    AddFreshStaysDistinct(base, news);
    if Distinct(base + news) { AddFreshDistinct(base, news); }
  }

  lemma {:induction false} AddFreshConcat(base: seq<SeenLock>, x: seq<SeenLock>, y: seq<SeenLock>)
    ensures AddFresh(AddFresh(base, x), y) == AddFresh(base, x + y)
    decreases x
  {
    if x == [] {
      assert x + y == y;
    } else {
      var f := x[0];
      assert (x + y)[0] == f && (x + y)[1..] == x[1..] + y;
      AddFreshConcat(if exists l :: l in base && l.SameEvent(f) then base else base + [f], x[1..], y);
    }
  }

  lemma {:induction false} RetainDistinct(s: seq<SeenLock>, keep: SeenLock -> bool)
    requires Distinct(s)
    ensures Distinct(Retain(s, keep))
  {
    if s != [] {
      var t, last := s[..|s| - 1], s[|s| - 1];
      RetainDistinct(t, keep);
      var kept := Retain(s, keep);
      forall i, j | 0 <= i < j < |kept| ensures !kept[i].SameEvent(kept[j]) {
        if j == |kept| - 1 && keep(last) {
          RetainMember(t, keep, kept[i]);
          var k :| 0 <= k < |t| && t[k] == kept[i];
          assert s[k] == kept[i];
        }
      }
    }
  }

  // ----- invariants -----

  /** Every cached event lies in the covered range `[from, next)`. */
  ghost predicate InRange(c: Cache, from: nat) {
    from <= c.next && forall l :: l in c.locked ==> from <= l.block < c.next
  }

  /** The cache is exactly what a full rescan of `chain` up to `next - 1` yields. */
  ghost predicate Exact(c: Cache, chain: Chain, from: nat) {
    && (c.next <= from || c.next <= |chain|)
    && from <= c.next
    && c.locked == Logs(chain, from, c.next)
  }

  /** Below the block the next pass restarts from, the cache is exact; above it
      a reorg may have left anything. */
  ghost predicate Solid(c: Cache, chain: Chain, from: nat) {
    var s := RewindStart(c.next, from, REORG_SAFETY_WINDOW);
    && InRange(c, from)
    && c.next <= Max(from, |chain|)
    && Below(c.locked, s) == Logs(chain, from, s)
  }

  lemma ExactIsSolid(c: Cache, chain: Chain, from: nat)
    requires WellFormed(chain) && Exact(c, chain, from)
    ensures Solid(c, chain, from)
  {
    forall l | l in c.locked ensures from <= l.block < c.next { LogsBlocks(chain, from, c.next, l); }
    var s := RewindStart(c.next, from, REORG_SAFETY_WINDOW);
    if s <= |chain| && c.next <= |chain| {
      BelowLogs(chain, from, s, c.next);
    } else {
      RetainNone(c.locked, IsBelow(s));
    }
  }

  /** A reorg is shallow for a pass with head `latest` if it changed no block more
      than the safety window below the lower of the two heads. */
  ghost predicate Shallow(was: Chain, now: Chain, latest: nat) {
    && WellFormed(now) && latest < |now|
    && Agree(was, now, Min(|was|, latest + 1) - REORG_SAFETY_WINDOW)
  }

  /** Head-regression pruning keeps the solid prefix, for the chain it was
      computed on and for every chain a shallow reorg away. */
  lemma PruneKeepsSolid(c: Cache, was: Chain, now: Chain, from: nat, latest: nat)
    requires WellFormed(was) && Solid(c, was, from) && Shallow(was, now, latest)
    ensures var p := Pruned(c, latest, from);
      && Solid(p, now, from)
      && (p.next == from || p.next <= latest + 1)
      && (from <= latest ==> p.next <= latest + 1)
  {
    var p := Pruned(c, latest, from);
    var s, s' := RewindStart(c.next, from, REORG_SAFETY_WINDOW), RewindStart(p.next, from, REORG_SAFETY_WINDOW);
    forall l | l in p.locked ensures from <= l.block < p.next {
      if p != c { RetainMember(c.locked, IsBelow(latest + 1), l); }
    }
    assert s' <= s;
    if s' == from {
      RetainNone(p.locked, IsBelow(s'));
    } else {
      RetainCompose(c.locked, IsBelow(s), IsBelow(s'), IsBelow(s'));
      BelowLogs(was, from, s', s);
      assert Below(c.locked, s') == Logs(was, from, s');
      if p != c {
        RetainCompose(c.locked, IsBelow(latest + 1), IsBelow(s'), IsBelow(s'));
      }
      assert was[..s'] == was[..Min(|was|, latest + 1) - REORG_SAFETY_WINDOW][..s'];
      assert now[..s'] == now[..Min(|was|, latest + 1) - REORG_SAFETY_WINDOW][..s'];
      LogsAgree(was, now, from, s');
    }
  }

  // ----- one chunk -----

  lemma FetchIsLogs(v: Chain, start: nat, end: nat)
    requires start <= end < |v|
    ensures Fetch(v, start, end) == Logs(v, start, end + 1)
  {
  }

  lemma AppendChunk(v: Chain, from: nat, start: nat, end: nat)
    requires WellFormed(v) && from <= start <= end < |v|
    ensures AddFresh(Logs(v, from, start), Fetch(v, start, end)) == Logs(v, from, end + 1)
  {
    FetchIsLogs(v, start, end);
    LogsSplit(v, from, start, end + 1);
    LogsDistinct(v, from, end + 1);
    AddFreshDistinct(Logs(v, from, start), Logs(v, start, end + 1));
  }

  /** The first chunk of a pass covers the whole rewound tail, so committing it
      makes the cache exact for the view that served it: no orphan survives and
      deduplication drops nothing. */
  lemma FirstChunkExact(c: Cache, v: Chain, from: nat, latest: nat)
    requires WellFormed(v) && latest < |v| && Solid(c, v, from)
    requires c.next == from || c.next <= latest + 1
    requires RewindStart(c.next, from, REORG_SAFETY_WINDOW) <= latest
    ensures var start := RewindStart(c.next, from, REORG_SAFETY_WINDOW);
      var end := ChunkEnd(start, latest);
      var c' := Commit(c, start, end, Fetch(v, start, end));
      Exact(c', v, from) && c'.next == end + 1
  {
    var start := RewindStart(c.next, from, REORG_SAFETY_WINDOW);
    var end := ChunkEnd(start, latest);
    RetainSame(c.locked, IsOutside(start, end), IsBelow(start));
    AppendChunk(v, from, start, end);
  }

  /** The state between two chunks: covered up to `start`, and exact below both
      `start` and `depth` for the view `v`. */
  ghost predicate Between(c: Cache, v: Chain, from: nat, start: nat, depth: nat) {
    && InRange(c, from) && c.next == start
    && (Min(start, depth) <= from || Min(start, depth) <= |v|)
    && Below(c.locked, Min(start, depth)) == Logs(v, from, Min(start, depth))
  }

  lemma BetweenAgree(c: Cache, v: Chain, w: Chain, from: nat, start: nat, depth: nat)
    requires start <= |v| && start <= |w| && from <= depth
    requires depth == from || (Agree(v, w, depth) && depth <= |v| && depth <= |w|)
    requires Between(c, v, from, start, depth)
    ensures Between(c, w, from, start, depth)
  {
    var m: nat := Min(start, depth);
    if from < m {
      assert v[..m] == v[..depth][..m] && w[..m] == w[..depth][..m];
      LogsAgree(v, w, from, m);
    }
  }

  lemma LaterChunkRange(c: Cache, v: Chain, from: nat, start: nat, latest: nat)
    requires WellFormed(v) && start <= latest < |v| && InRange(c, from) && c.next == start
    ensures var end := ChunkEnd(start, latest);
      var c' := Commit(c, start, end, Fetch(v, start, end));
      && c' == Cache(end + 1, AddFresh(c.locked, Fetch(v, start, end)))
      && |c.locked| <= |c'.locked| && c'.locked[..|c.locked|] == c.locked
      && (forall l :: l in c'.locked[|c.locked|..] ==> start <= l.block <= end)
      && InRange(c', from)
  {
    var end := ChunkEnd(start, latest);
    FetchIsLogs(v, start, end);
    forall l | l in Fetch(v, start, end) ensures start <= l.block <= end { LogsBlocks(v, start, end + 1, l); }
    RetainAll(c.locked, IsOutside(start, end));
    AddFreshMembers(c.locked, Fetch(v, start, end));
    RangeGrows(c, AddFresh(c.locked, Fetch(v, start, end)), from, end);
  }

  lemma RangeGrows(c: Cache, locked': seq<SeenLock>, from: nat, end: nat)
    requires InRange(c, from) && c.next <= end && |c.locked| <= |locked'| && locked'[..|c.locked|] == c.locked
    requires forall l :: l in locked'[|c.locked|..] ==> c.next <= l.block <= end
    ensures InRange(Cache(end + 1, locked'), from)
  {
    assert locked' == c.locked + locked'[|c.locked|..];
  }

  lemma LaterChunkAbove(c: Cache, v: Chain, from: nat, start: nat, latest: nat, depth: nat)
    requires WellFormed(v) && start <= latest < |v| && from <= depth <= start
    requires InRange(c, from) && c.next == start
    ensures var end := ChunkEnd(start, latest);
      Below(AddFresh(c.locked, Fetch(v, start, end)), depth) == Below(c.locked, depth)
  {
    LaterChunkRange(c, v, from, start, latest);
    var locked' := AddFresh(c.locked, Fetch(v, start, ChunkEnd(start, latest)));
    var added := locked'[|c.locked|..];
    assert locked' == c.locked + added;
    RetainConcat(c.locked, added, IsBelow(depth));
    RetainNone(added, IsBelow(depth));
  }

  lemma LaterChunkWithin(c: Cache, v: Chain, from: nat, start: nat, latest: nat)
    requires WellFormed(v) && from <= start <= latest < |v| && InRange(c, from) && c.next == start
    requires Below(c.locked, start) == Logs(v, from, start)
    ensures var end := ChunkEnd(start, latest);
      AddFresh(c.locked, Fetch(v, start, end)) == Logs(v, from, end + 1)
  {
    RetainAll(c.locked, IsBelow(start));
    AppendChunk(v, from, start, ChunkEnd(start, latest));
  }

  lemma StillBetween(c: Cache, c': Cache, v: Chain, from: nat, start: nat, end: nat, depth: nat)
    requires from <= depth <= start <= end && Between(c, v, from, start, depth)
    requires InRange(c', from) && c'.next == end + 1 && Below(c'.locked, depth) == Below(c.locked, depth)
    ensures Between(c', v, from, end + 1, depth)
  {
  }

  lemma LaterChunkHigh(c: Cache, v: Chain, from: nat, start: nat, latest: nat, depth: nat)
    requires WellFormed(v) && start <= latest < |v| && from <= depth <= start && Between(c, v, from, start, depth)
    ensures var end := ChunkEnd(start, latest);
      Between(Commit(c, start, end, Fetch(v, start, end)), v, from, end + 1, depth)
  {
    var end := ChunkEnd(start, latest);
    var c' := Commit(c, start, end, Fetch(v, start, end));
    LaterChunkRange(c, v, from, start, latest);
    assert Below(c'.locked, depth) == Below(c.locked, depth) by { LaterChunkAbove(c, v, from, start, latest, depth); }
    StillBetween(c, c', v, from, start, end, depth);
  }

  lemma LaterChunkLow(c: Cache, v: Chain, from: nat, start: nat, latest: nat, depth: nat)
    requires WellFormed(v) && start <= latest < |v| && from <= start < depth <= Max(from, latest)
    requires Between(c, v, from, start, depth)
    ensures var end := ChunkEnd(start, latest);
      Between(Commit(c, start, end, Fetch(v, start, end)), v, from, end + 1, depth)
  {
    LaterChunkRange(c, v, from, start, latest);
    LaterChunkWithin(c, v, from, start, latest);
    var end := ChunkEnd(start, latest);
    ExactIsBetween(Commit(c, start, end, Fetch(v, start, end)), v, from, end + 1, depth);
  }

  lemma ExactIsBetween(c: Cache, v: Chain, from: nat, start: nat, depth: nat)
    requires WellFormed(v) && InRange(c, from) && c.next == start && from <= depth && start <= |v|
    requires c.locked == Logs(v, from, start)
    ensures Between(c, v, from, start, depth)
  {
    BelowLogs(v, from, Min(start, depth), start);
  }

  /** One later chunk, served by a view that agrees with the earlier ones below
      `depth`, keeps the cache exact below `depth`. */
  lemma LaterChunk(c: Cache, v: Chain, from: nat, start: nat, latest: nat, depth: nat)
    requires WellFormed(v) && start <= latest < |v| && from <= depth <= Max(from, latest)
    requires Between(c, v, from, start, depth)
    ensures var end := ChunkEnd(start, latest);
      Between(Commit(c, start, end, Fetch(v, start, end)), v, from, end + 1, depth)
  {
    if depth <= start {
      LaterChunkHigh(c, v, from, start, latest, depth);
    } else {
      LaterChunkLow(c, v, from, start, latest, depth);
    }
  }

  /** The same across a change of view: `tip` is the chain the pass ends on. */
  lemma LaterChunkAcross(c: Cache, tip: Chain, v: Chain, from: nat, start: nat, latest: nat)
    requires WellFormed(v) && from <= start <= latest < |v| && latest < |tip|
    requires Agree(v, tip, latest + 1 - REORG_SAFETY_WINDOW)
    requires Between(c, tip, from, start, Max(from, latest + 1 - REORG_SAFETY_WINDOW))
    ensures var end := ChunkEnd(start, latest);
      Between(Commit(c, start, end, Fetch(v, start, end)), tip, from, end + 1,
              Max(from, latest + 1 - REORG_SAFETY_WINDOW))
  {
    var end := ChunkEnd(start, latest);
    var depth := Max(from, latest + 1 - REORG_SAFETY_WINDOW);
    AgreeUpTo(tip, v, from, latest);
    BetweenAgree(c, tip, v, from, start, depth);
    LaterChunk(c, v, from, start, latest, depth);
    AgreeUpTo(v, tip, from, latest);
    BetweenAgree(Commit(c, start, end, Fetch(v, start, end)), v, tip, from, end + 1, depth);
  }

  lemma BetweenIsSolid(c: Cache, v: Chain, from: nat, start: nat, latest: nat)
    requires WellFormed(v) && start <= latest + 1 <= |v|
    requires Between(c, v, from, start, Max(from, latest + 1 - REORG_SAFETY_WINDOW))
    ensures Solid(c, v, from)
  {
    var m: nat := Min(start, Max(from, latest + 1 - REORG_SAFETY_WINDOW));
    var s := RewindStart(c.next, from, REORG_SAFETY_WINDOW);
    if s == from {
      RetainNone(c.locked, IsBelow(s));
    } else {
      RetainCompose(c.locked, IsBelow(m), IsBelow(s), IsBelow(s));
      BelowLogs(v, from, s, m);
    }
  }

  // ----- one pass -----

  /** A pass as the environment sees it: the head it was told (if the read
      succeeded), how its requests were answered, and the chain when it ended. */
  datatype Pass = Pass(head: Option<nat>, answers: nat -> Answer, tip: Chain)

  /** Every view the pass saw, and the chain it left behind, is a well-formed
      chain of at least the reported height, a shallow reorg away from `was`, and
      they differ among themselves only within the safety window of that head. */
  ghost predicate ShallowPass(was: Chain, p: Pass) {
    match p.head
    case None => p.tip == was
    case Some(latest) =>
      && Shallow(was, p.tip, latest)
      && forall i :: 0 <= i < MAX_CHUNKS_PER_CALL && p.answers(i).Served? ==>
           && Shallow(was, p.answers(i).view, latest)
           && Agree(p.answers(i).view, p.tip, latest + 1 - REORG_SAFETY_WINDOW)
  }

  function RunPass(c: Cache, from: nat, p: Pass): (Cache, Option<string>) {
    match p.head
    case None => (c, Some("eth_blockNumber failed"))
    case Some(latest) => Scan(c, from, latest, p.answers)
  }

  /** Every answer of the pass is a well-formed view reaching `latest`, within
      the safety window of `tip`. */
  ghost predicate NearTip(answers: nat -> Answer, tip: Chain, latest: nat) {
    forall i :: 0 <= i < MAX_CHUNKS_PER_CALL && answers(i).Served? ==>
      && WellFormed(answers(i).view) && latest < |answers(i).view|
      && Agree(answers(i).view, tip, latest + 1 - REORG_SAFETY_WINDOW)
  }

  lemma ChunksStop(c: Cache, from: nat, start: nat, latest: nat, used: nat, answers: nat -> Answer, tip: Chain)
    requires WellFormed(tip) && latest < |tip| && from <= start <= latest + 1
    requires Between(c, tip, from, start, Max(from, latest + 1 - REORG_SAFETY_WINDOW))
    requires !(start <= latest && used < MAX_CHUNKS_PER_CALL && answers(used).Served?)
    ensures Solid(Chunks(c, start, latest, used, answers).0, tip, from)
  {
    assert Chunks(c, start, latest, used, answers).0 == c;
    BetweenIsSolid(c, tip, from, start, latest);
  }

  lemma ChunksStep(c: Cache, start: nat, latest: nat, used: nat, answers: nat -> Answer)
    requires start <= latest && used < MAX_CHUNKS_PER_CALL && answers(used).Served?
    ensures var end := ChunkEnd(start, latest);
      Chunks(c, start, latest, used, answers)
      == Chunks(Commit(c, start, end, Fetch(answers(used).view, start, end)), end + 1, latest, used + 1, answers)
  {
  }

  lemma ChunksFail(c: Cache, start: nat, latest: nat, used: nat, answers: nat -> Answer)
    requires start <= latest && used < MAX_CHUNKS_PER_CALL && answers(used).Failed?
    ensures Chunks(c, start, latest, used, answers) == (c, Some(answers(used).error))
  {
  }

  lemma {:induction false} ChunksKeepSolid(c: Cache, from: nat, start: nat, latest: nat, used: nat,
                                           answers: nat -> Answer, tip: Chain)
    requires WellFormed(tip) && latest < |tip| && NearTip(answers, tip, latest)
    requires from <= start <= latest + 1
    requires Between(c, tip, from, start, Max(from, latest + 1 - REORG_SAFETY_WINDOW))
    ensures Solid(Chunks(c, start, latest, used, answers).0, tip, from)
    decreases MAX_CHUNKS_PER_CALL - used
  {
    if !(start <= latest && used < MAX_CHUNKS_PER_CALL && answers(used).Served?) {
      ChunksStop(c, from, start, latest, used, answers, tip);
    } else {
      var v, end := answers(used).view, ChunkEnd(start, latest);
      LaterChunkAcross(c, tip, v, from, start, latest);
      ChunksStep(c, start, latest, used, answers);
      ChunksKeepSolid(Commit(c, start, end, Fetch(v, start, end)), from, end + 1, latest, used + 1, answers, tip);
    }
  }

  /** Rephrases agreement below the safety window as agreement below `depth`
      whenever a non-empty covered range is at stake. */
  lemma AgreeUpTo(v: Chain, w: Chain, from: nat, latest: nat)
    requires latest < |v| && latest < |w|
    requires Agree(v, w, latest + 1 - REORG_SAFETY_WINDOW) || Agree(w, v, latest + 1 - REORG_SAFETY_WINDOW)
    ensures var depth := Max(from, latest + 1 - REORG_SAFETY_WINDOW);
      (depth == from || Agree(v, w, depth)) && (depth == from || (depth <= |v| && depth <= |w|))
  {
  }

  /** A scan is its prune, its first chunk, and the rest. */
  lemma ScanUnfold(c: Cache, from: nat, latest: nat, answers: nat -> Answer)
    ensures var c0 := Pruned(c, latest, from);
      var start := RewindStart(c0.next, from, REORG_SAFETY_WINDOW);
      if start <= latest && answers(0).Served? then
        var end := ChunkEnd(start, latest);
        Scan(c, from, latest, answers)
          == Chunks(Commit(c0, start, end, Fetch(answers(0).view, start, end)), end + 1, latest, 1, answers)
      else
        Scan(c, from, latest, answers).0 == c0 && (Scan(c, from, latest, answers).1.None? <==> start > latest)
  {
  }

  lemma ScanKeepsSolid(c: Cache, from: nat, was: Chain, latest: nat, answers: nat -> Answer, tip: Chain)
    requires WellFormed(was) && Solid(c, was, from) && Shallow(was, tip, latest) && NearTip(answers, tip, latest)
    requires answers(0).Served? ==> Shallow(was, answers(0).view, latest)
    ensures Solid(Scan(c, from, latest, answers).0, tip, from)
  {
    var c0 := Pruned(c, latest, from);
    var start := RewindStart(c0.next, from, REORG_SAFETY_WINDOW);
    ScanUnfold(c, from, latest, answers);
    PruneKeepsSolid(c, was, tip, from, latest);
    if start <= latest && answers(0).Served? {
      var v, end := answers(0).view, ChunkEnd(start, latest);
      FirstChunkAcross(c, from, was, v, tip, latest);
      ChunksKeepSolid(Commit(c0, start, end, Fetch(v, start, end)), from, end + 1, latest, 1, answers, tip);
    }
  }

  /** Whatever a pass ran into (failed head read, failed fetch at any chunk, a
      regressed head, a reorg before or during it), it leaves the solid prefix
      solid for the chain it ended on. */
  lemma PassKeepsSolid(c: Cache, from: nat, was: Chain, p: Pass)
    requires WellFormed(was) && Solid(c, was, from) && ShallowPass(was, p)
    ensures WellFormed(p.tip) && Solid(RunPass(c, from, p).0, p.tip, from)
  {
    if p.head.Some? {
      ScanKeepsSolid(c, from, was, p.head.value, p.answers, p.tip);
    }
  }

  lemma FirstChunkAcross(c: Cache, from: nat, was: Chain, v: Chain, tip: Chain, latest: nat)
    requires WellFormed(was) && Solid(c, was, from) && Shallow(was, v, latest)
    requires latest < |tip| && Agree(v, tip, latest + 1 - REORG_SAFETY_WINDOW)
    requires RewindStart(Pruned(c, latest, from).next, from, REORG_SAFETY_WINDOW) <= latest
    ensures var c0 := Pruned(c, latest, from);
      var start := RewindStart(c0.next, from, REORG_SAFETY_WINDOW);
      var end := ChunkEnd(start, latest);
      Between(Commit(c0, start, end, Fetch(v, start, end)), tip, from, end + 1,
              Max(from, latest + 1 - REORG_SAFETY_WINDOW))
  {
    var c0 := Pruned(c, latest, from);
    PruneKeepsSolid(c, was, v, from, latest);
    FirstChunkExact(c0, v, from, latest);
    var start := RewindStart(c0.next, from, REORG_SAFETY_WINDOW);
    var end := ChunkEnd(start, latest);
    ExactAcross(Commit(c0, start, end, Fetch(v, start, end)), v, tip, from, latest);
  }

  /** What is exact for one view is, below the window, exact for the tip. */
  lemma ExactAcross(c: Cache, v: Chain, tip: Chain, from: nat, latest: nat)
    requires WellFormed(v) && Exact(c, v, from) && c.next <= latest + 1 <= |v| && latest < |tip|
    requires Agree(v, tip, latest + 1 - REORG_SAFETY_WINDOW)
    ensures Between(c, tip, from, c.next, Max(from, latest + 1 - REORG_SAFETY_WINDOW))
  {
    var depth := Max(from, latest + 1 - REORG_SAFETY_WINDOW);
    ExactIsSolid(c, v, from);
    ExactIsBetween(c, v, from, c.next, depth);
    AgreeUpTo(v, tip, from, latest);
    BetweenAgree(c, v, tip, from, c.next, depth);
  }

  // ----- what a pass reads, keeps and gets right -----

  /** Everything the chunks of a pass returned, in order, up to the first failure. */
  function ChunkReads(start: nat, latest: nat, used: nat, answers: nat -> Answer): seq<SeenLock>
    decreases MAX_CHUNKS_PER_CALL - used
  {
    if start <= latest && used < MAX_CHUNKS_PER_CALL && answers(used).Served? then
      var end := ChunkEnd(start, latest);
      Fetch(answers(used).view, start, end) + ChunkReads(end + 1, latest, used + 1, answers)
    else []
  }

  /** The block after the last chunk that was served. */
  function ChunksEnd(start: nat, latest: nat, used: nat, answers: nat -> Answer): (e: nat)
    ensures start <= e && (e == start || e <= latest + 1)
    decreases MAX_CHUNKS_PER_CALL - used
  {
    if start <= latest && used < MAX_CHUNKS_PER_CALL && answers(used).Served?
    then ChunksEnd(ChunkEnd(start, latest) + 1, latest, used + 1, answers)
    else start
  }

  /** The views differ as they like, but each is a chain. */
  ghost predicate Chains(answers: nat -> Answer) {
    forall i :: 0 <= i < MAX_CHUNKS_PER_CALL && answers(i).Served? ==> WellFormed(answers(i).view)
  }

  lemma FetchBlocks(v: Chain, start: nat, end: nat, l: SeenLock)
    requires WellFormed(v) && l in Fetch(v, start, end)
    ensures start <= l.block <= end
  {
    LogsBlocks(v, Min(start, |v|), Min(end + 1, |v|), l);
  }

  lemma {:induction false} ReadsBlocks(start: nat, latest: nat, used: nat, answers: nat -> Answer, l: SeenLock)
    requires Chains(answers) && l in ChunkReads(start, latest, used, answers)
    ensures start <= l.block
    decreases MAX_CHUNKS_PER_CALL - used
  {
    var end := ChunkEnd(start, latest);
    if l in Fetch(answers(used).view, start, end) {
      FetchBlocks(answers(used).view, start, end, l);
    } else {
      ReadsBlocks(end + 1, latest, used + 1, answers, l);
    }
  }

  lemma FreshBelow(base: seq<SeenLock>, v: Chain, start: nat, end: nat)
    requires WellFormed(v) && start <= end && forall l :: l in base ==> l.block < start
    ensures forall l :: l in AddFresh(base, Fetch(v, start, end)) ==> l.block < end + 1
  {
    var out := AddFresh(base, Fetch(v, start, end));
    AddFreshMembers(base, Fetch(v, start, end));
    assert out == base + out[|base|..];
    forall l | l in out ensures l.block < end + 1 {
      if l !in base { FetchBlocks(v, start, end, l); }
    }
  }

  lemma ReadsStep(start: nat, latest: nat, used: nat, answers: nat -> Answer)
    requires start <= latest && used < MAX_CHUNKS_PER_CALL && answers(used).Served?
    ensures var end := ChunkEnd(start, latest);
      && ChunkReads(start, latest, used, answers)
         == Fetch(answers(used).view, start, end) + ChunkReads(end + 1, latest, used + 1, answers)
      && ChunksEnd(start, latest, used, answers) == ChunksEnd(end + 1, latest, used + 1, answers)
  {
  }

  /** The cache between two chunks, and after the rest of them. */
  ghost predicate Appends(base: seq<SeenLock>, start: nat, latest: nat, used: nat, answers: nat -> Answer) {
    Chunks(Cache(start, base), start, latest, used, answers).0
    == Cache(ChunksEnd(start, latest, used, answers), AddFresh(base, ChunkReads(start, latest, used, answers)))
  }

  lemma CommitLater(base: seq<SeenLock>, start: nat, end: nat, news: seq<SeenLock>)
    requires start <= end && forall l :: l in base ==> l.block < start
    ensures Commit(Cache(start, base), start, end, news) == Cache(end + 1, AddFresh(base, news))
  {
    RetainAll(base, IsOutside(start, end));
  }

  lemma AppendsStep(base: seq<SeenLock>, start: nat, latest: nat, used: nat, answers: nat -> Answer)
    requires start <= latest && used < MAX_CHUNKS_PER_CALL && answers(used).Served?
    requires forall l :: l in base ==> l.block < start
    requires var end := ChunkEnd(start, latest);
      Appends(AddFresh(base, Fetch(answers(used).view, start, end)), end + 1, latest, used + 1, answers)
    ensures Appends(base, start, latest, used, answers)
  {
    var end := ChunkEnd(start, latest);
    var news := Fetch(answers(used).view, start, end);
    CommitLater(base, start, end, news);
    ChunksStep(Cache(start, base), start, latest, used, answers);
    ReadsStep(start, latest, used, answers);
    AddFreshConcat(base, news, ChunkReads(end + 1, latest, used + 1, answers));
  }

  lemma AppendsNothing(base: seq<SeenLock>, start: nat, latest: nat, used: nat, answers: nat -> Answer)
    requires start > latest || used >= MAX_CHUNKS_PER_CALL || answers(used).Failed?
    ensures Appends(base, start, latest, used, answers)
  {
  }

  /** Later chunks only append: the cache is what it was, deduplicated with all that
      they returned. */
  lemma {:induction false} ChunksAppend(base: seq<SeenLock>, start: nat, latest: nat, used: nat, answers: nat -> Answer)
    requires Chains(answers) && forall l :: l in base ==> l.block < start
    ensures Appends(base, start, latest, used, answers)
    decreases MAX_CHUNKS_PER_CALL - used
  {
    if start <= latest && used < MAX_CHUNKS_PER_CALL && answers(used).Served? {
      var v, end := answers(used).view, ChunkEnd(start, latest);
      var next := AddFresh(base, Fetch(v, start, end));
      assert forall l :: l in next ==> l.block < end + 1 by { FreshBelow(base, v, start, end); }
      ChunksAppend(next, end + 1, latest, used + 1, answers);
      AppendsStep(base, start, latest, used, answers);
    } else {
      AppendsNothing(base, start, latest, used, answers);
    }
  }

  /** Where a pass starts reading, and what it keeps of the cache below that. */
  function PassStart(c: Cache, from: nat, latest: nat): nat {
    RewindStart(Pruned(c, latest, from).next, from, REORG_SAFETY_WINDOW)
  }

  function PassBase(c: Cache, from: nat, latest: nat): seq<SeenLock> {
    Below(Pruned(c, latest, from).locked, PassStart(c, from, latest))
  }

  function PassReads(c: Cache, from: nat, latest: nat, answers: nat -> Answer): seq<SeenLock> {
    ChunkReads(PassStart(c, from, latest), latest, 0, answers)
  }

  lemma PrunedInRange(c: Cache, from: nat, latest: nat)
    requires InRange(c, from)
    ensures var c0 := Pruned(c, latest, from); InRange(c0, from) && (c0.next == from || c0.next <= latest + 1)
  {
    var c0 := Pruned(c, latest, from);
    forall l | l in c0.locked ensures from <= l.block < c0.next {
      if c0 != c { RetainMember(c.locked, IsBelow(latest + 1), l); }
    }
  }

  lemma FirstCommit(c0: Cache, v: Chain, from: nat, latest: nat)
    requires WellFormed(v) && InRange(c0, from) && (c0.next == from || c0.next <= latest + 1)
    requires RewindStart(c0.next, from, REORG_SAFETY_WINDOW) <= latest
    ensures var start := RewindStart(c0.next, from, REORG_SAFETY_WINDOW);
      var end := ChunkEnd(start, latest);
      Commit(c0, start, end, Fetch(v, start, end))
        == Cache(end + 1, AddFresh(Below(c0.locked, start), Fetch(v, start, end)))
  {
    var start := RewindStart(c0.next, from, REORG_SAFETY_WINDOW);
    RetainSame(c0.locked, IsOutside(start, ChunkEnd(start, latest)), IsBelow(start));
  }

  /** A pass whose first chunk was served leaves the cache below its start,
      deduplicated with everything it read. */
  lemma PassIsAddFresh(c: Cache, from: nat, latest: nat, answers: nat -> Answer)
    requires InRange(c, from) && Chains(answers) && PassStart(c, from, latest) <= latest && answers(0).Served?
    ensures Scan(c, from, latest, answers).0
      == Cache(ChunksEnd(PassStart(c, from, latest), latest, 0, answers),
               AddFresh(PassBase(c, from, latest), PassReads(c, from, latest, answers)))
  {
    var base, start := PassBase(c, from, latest), PassStart(c, from, latest);
    PrunedInRange(c, from, latest);
    forall l | l in base ensures l.block < start { RetainMember(Pruned(c, latest, from).locked, IsBelow(start), l); }
    ScanFromBase(c, from, latest, answers);
    ChunksAppend(base, start, latest, 0, answers);
  }

  /** The first commit drops what is cached from the start on, as if it had not been there. */
  lemma ScanFromBase(c: Cache, from: nat, latest: nat, answers: nat -> Answer)
    requires InRange(c, from) && Chains(answers) && PassStart(c, from, latest) <= latest && answers(0).Served?
    requires forall l :: l in PassBase(c, from, latest) ==> l.block < PassStart(c, from, latest)
    ensures var start := PassStart(c, from, latest);
      Scan(c, from, latest, answers) == Chunks(Cache(start, PassBase(c, from, latest)), start, latest, 0, answers)
  {
    var base, start := PassBase(c, from, latest), PassStart(c, from, latest);
    var v, end := answers(0).view, ChunkEnd(start, latest);
    PrunedInRange(c, from, latest);
    FirstCommit(Pruned(c, latest, from), v, from, latest);
    CommitLater(base, start, end, Fetch(v, start, end));
    ScanUnfold(c, from, latest, answers);
    ChunksStep(Cache(start, base), start, latest, 0, answers);
  }

  lemma PassBaseDistinct(c: Cache, from: nat, latest: nat)
    requires Distinct(c.locked)
    ensures Distinct(PassBase(c, from, latest))
  {
    RetainDistinct(c.locked, IsBelow(latest + 1));
    RetainDistinct(Pruned(c, latest, from).locked, IsBelow(PassStart(c, from, latest)));
  }

  /** No pass ever caches one event twice. */
  lemma {:induction false} ChunksStayDistinct(c: Cache, start: nat, latest: nat, used: nat, answers: nat -> Answer)
    requires Distinct(c.locked)
    ensures Distinct(Chunks(c, start, latest, used, answers).0.locked)
    decreases MAX_CHUNKS_PER_CALL - used
  {
    if start <= latest && used < MAX_CHUNKS_PER_CALL && answers(used).Served? {
      var v, end := answers(used).view, ChunkEnd(start, latest);
      RetainDistinct(c.locked, IsOutside(start, end));
      AddFreshStaysDistinct(Retain(c.locked, IsOutside(start, end)), Fetch(v, start, end));
      ChunksStayDistinct(Commit(c, start, end, Fetch(v, start, end)), end + 1, latest, used + 1, answers);
    }
  }

  lemma ScanStaysDistinct(c: Cache, from: nat, latest: nat, answers: nat -> Answer)
    requires Distinct(c.locked)
    ensures Distinct(Scan(c, from, latest, answers).0.locked)
  {
    RetainDistinct(c.locked, IsBelow(latest + 1));
    ChunksStayDistinct(Pruned(c, latest, from), PassStart(c, from, latest), latest, 0, answers);
  }

  /** Deduplication swallows nothing of what a pass read exactly if no event was read
      twice, or read although it is cached below the start. */
  lemma PassKeepsAllReadIff(c: Cache, from: nat, latest: nat, answers: nat -> Answer)
    requires InRange(c, from) && Distinct(c.locked) && Chains(answers)
    requires PassStart(c, from, latest) <= latest && answers(0).Served?
    ensures var all := PassBase(c, from, latest) + PassReads(c, from, latest, answers);
      Scan(c, from, latest, answers).0.locked == all <==> Distinct(all)
  {
    PassIsAddFresh(c, from, latest, answers);
    PassBaseDistinct(c, from, latest);
    AddFreshKeepsAllIff(PassBase(c, from, latest), PassReads(c, from, latest, answers));
  }

  /** Each served chunk has, for its own blocks, the logs of `tip`. */
  predicate ChunksAgree(start: nat, latest: nat, used: nat, answers: nat -> Answer, tip: Chain)
    requires latest < |tip|
    decreases MAX_CHUNKS_PER_CALL - used
  {
    start <= latest && used < MAX_CHUNKS_PER_CALL && answers(used).Served? ==>
      var end := ChunkEnd(start, latest);
      && Fetch(answers(used).view, start, end) == Logs(tip, start, end + 1)
      && ChunksAgree(end + 1, latest, used + 1, answers, tip)
  }

  /** No reorg during the pass: every view that served it is the chain, up to the
      head the pass was told. */
  ghost predicate NoReorg(answers: nat -> Answer, tip: Chain, latest: nat) {
    forall i :: 0 <= i < MAX_CHUNKS_PER_CALL && answers(i).Served? ==>
      latest < |answers(i).view| && Agree(answers(i).view, tip, latest + 1)
  }

  lemma {:induction false} NoReorgAgrees(start: nat, latest: nat, used: nat, answers: nat -> Answer, tip: Chain)
    requires latest < |tip| && NoReorg(answers, tip, latest)
    ensures ChunksAgree(start, latest, used, answers, tip)
    decreases MAX_CHUNKS_PER_CALL - used
  {
    if start <= latest && used < MAX_CHUNKS_PER_CALL && answers(used).Served? {
      var v, end := answers(used).view, ChunkEnd(start, latest);
      assert v[..end + 1] == v[..latest + 1][..end + 1] && tip[..end + 1] == tip[..latest + 1][..end + 1];
      FetchIsLogs(v, start, end);
      LogsAgree(v, tip, start, end + 1);
      NoReorgAgrees(end + 1, latest, used + 1, answers, tip);
    }
  }

  lemma SplitByBlock(f: seq<SeenLock>, g: seq<SeenLock>, x: seq<SeenLock>, y: seq<SeenLock>, m: nat)
    requires (forall l :: l in f || l in x ==> l.block < m) && (forall l :: l in g || l in y ==> m <= l.block)
    ensures f + g == x + y <==> f == x && g == y
  {
    if f + g == x + y {
      RetainConcat(f, g, IsBelow(m));
      RetainConcat(x, y, IsBelow(m));
      RetainAll(f, IsBelow(m));
      RetainAll(x, IsBelow(m));
      RetainNone(g, IsBelow(m));
      RetainNone(y, IsBelow(m));
      assert g == (f + g)[|f|..] && y == (x + y)[|x|..];
    }
  }

  /** Agreement chunk by chunk is agreement of all that was read. */
  lemma {:induction false} AgreeIffReads(start: nat, latest: nat, used: nat, answers: nat -> Answer, tip: Chain)
    requires WellFormed(tip) && latest < |tip| && Chains(answers)
    ensures ChunksAgree(start, latest, used, answers, tip) <==>
      ChunkReads(start, latest, used, answers) == Logs(tip, start, ChunksEnd(start, latest, used, answers))
    decreases MAX_CHUNKS_PER_CALL - used
  {
    if start <= latest && used < MAX_CHUNKS_PER_CALL && answers(used).Served? {
      var v, end := answers(used).view, ChunkEnd(start, latest);
      var e := ChunksEnd(end + 1, latest, used + 1, answers);
      AgreeIffReads(end + 1, latest, used + 1, answers, tip);
      LogsSplit(tip, start, end + 1, e);
      ReadsStep(start, latest, used, answers);
      ChunkSplits(v, start, end, ChunkReads(end + 1, latest, used + 1, answers), tip, e) by {
        forall l | l in ChunkReads(end + 1, latest, used + 1, answers) ensures end + 1 <= l.block {
          ReadsBlocks(end + 1, latest, used + 1, answers, l);
        }
      }
    }
  }

  lemma ChunkSplits(v: Chain, start: nat, end: nat, rest: seq<SeenLock>, tip: Chain, e: nat)
    requires WellFormed(v) && WellFormed(tip) && start <= end < e <= |tip|
    requires forall l :: l in rest ==> end + 1 <= l.block
    ensures Fetch(v, start, end) + rest == Logs(tip, start, end + 1) + Logs(tip, end + 1, e) <==>
      Fetch(v, start, end) == Logs(tip, start, end + 1) && rest == Logs(tip, end + 1, e)
  {
    var f, x, y := Fetch(v, start, end), Logs(tip, start, end + 1), Logs(tip, end + 1, e);
    forall l | l in f || l in x ensures l.block < end + 1 {
      if l in f { FetchBlocks(v, start, end, l); } else { LogsBlocks(tip, start, end + 1, l); }
    }
    forall l | l in y ensures end + 1 <= l.block { LogsBlocks(tip, end + 1, e, l); }
    SplitByBlock(f, rest, x, y, end + 1);
  }

  lemma PassBaseIsLogs(c: Cache, from: nat, was: Chain, tip: Chain, latest: nat)
    requires WellFormed(was) && Solid(c, was, from) && Shallow(was, tip, latest) && PassStart(c, from, latest) <= latest
    ensures from <= PassStart(c, from, latest)
    ensures PassBase(c, from, latest) == Logs(tip, from, PassStart(c, from, latest))
  {
    PruneKeepsSolid(c, was, tip, from, latest);
  }

  /** A pass is exact for `tip`, and swallowed nothing, exactly if each chunk it was
      served agrees with `tip` on the chunk's own blocks, however the views differed
      elsewhere and however stale the cache was above its solid prefix. */
  lemma PassExactIff(c: Cache, from: nat, was: Chain, tip: Chain, latest: nat, answers: nat -> Answer)
    requires WellFormed(was) && Solid(c, was, from) && Shallow(was, tip, latest) && Chains(answers)
    requires PassStart(c, from, latest) <= latest && answers(0).Served?
    ensures Exact(Scan(c, from, latest, answers).0, tip, from)
      && Distinct(PassBase(c, from, latest) + PassReads(c, from, latest, answers))
      <==> ChunksAgree(PassStart(c, from, latest), latest, 0, answers, tip)
  {
    var start := PassStart(c, from, latest);
    var base, seen := PassBase(c, from, latest), PassReads(c, from, latest, answers);
    var e := ChunksEnd(start, latest, 0, answers);
    PassBaseIsLogs(c, from, was, tip, latest);
    LogsSplit(tip, from, start, e);
    LogsDistinct(tip, from, e);
    LogsDistinct(tip, from, start);
    AgreeIffReads(start, latest, 0, answers, tip);
    PassIsAddFresh(c, from, latest, answers);
    AddFreshKeepsAllIff(base, seen);
    SameTail(base, seen, Logs(tip, start, e));
  }

  lemma SameTail(base: seq<SeenLock>, x: seq<SeenLock>, y: seq<SeenLock>)
    ensures base + x == base + y <==> x == y
  {
    assert x == (base + x)[|base|..] && y == (base + y)[|base|..];
  }

  /** A pass that agrees with the chain on what it read, or had nothing to read,
      leaves exactly what a full rescan yields. */
  lemma AgreeingPassIsExact(c: Cache, from: nat, was: Chain, tip: Chain, latest: nat, answers: nat -> Answer)
    requires WellFormed(was) && Solid(c, was, from) && Shallow(was, tip, latest) && Chains(answers)
    requires answers(0).Served? || Scan(c, from, latest, answers).1.None?
    requires ChunksAgree(PassStart(c, from, latest), latest, 0, answers, tip)
    ensures Exact(Scan(c, from, latest, answers).0, tip, from)
  {
    ScanUnfold(c, from, latest, answers);
    if PassStart(c, from, latest) <= latest {
      PassExactIff(c, from, was, tip, latest, answers);
    } else {
      PrunedInRange(c, from, latest);
      RetainAll(Pruned(c, latest, from).locked, IsBelow(from));
      RetainNone(Pruned(c, latest, from).locked, IsBelow(from));
    }
  }

  // ----- whole runs -----

  ghost predicate ShallowRun(was: Chain, passes: seq<Pass>)
    decreases passes
  {
    passes == [] || (ShallowPass(was, passes[0]) && ShallowRun(passes[0].tip, passes[1..]))
  }

  function RunPasses(c: Cache, from: nat, passes: seq<Pass>): Cache
    decreases passes
  {
    if passes == [] then c else RunPasses(RunPass(c, from, passes[0]).0, from, passes[1..])
  }

  ghost function LastTip(was: Chain, passes: seq<Pass>): Chain {
    if passes == [] then was else passes[|passes| - 1].tip
  }

  lemma {:induction false} RunKeepsSolid(c: Cache, from: nat, was: Chain, passes: seq<Pass>)
    requires WellFormed(was) && Solid(c, was, from) && ShallowRun(was, passes)
    ensures WellFormed(LastTip(was, passes)) && Solid(RunPasses(c, from, passes), LastTip(was, passes), from)
    decreases passes
  {
    if passes != [] {
      PassKeepsSolid(c, from, was, passes[0]);
      RunKeepsSolid(RunPass(c, from, passes[0]).0, from, passes[0].tip, passes[1..]);
      assert LastTip(passes[0].tip, passes[1..]) == LastTip(was, passes);
    }
  }

  function EmptyCache(from: nat): Cache { Cache(from, []) }

  lemma {:induction false} RunStaysDistinct(c: Cache, from: nat, passes: seq<Pass>)
    requires Distinct(c.locked)
    ensures Distinct(RunPasses(c, from, passes).locked)
    decreases passes
  {
    if passes != [] {
      if passes[0].head.Some? { ScanStaysDistinct(c, from, passes[0].head.value, passes[0].answers); }
      RunStaysDistinct(RunPass(c, from, passes[0]).0, from, passes[1..]);
    }
  }

  /** After any run from the empty cache, a completed pass that agrees with the
      canonical chain on what it read answers exactly as a full rescan would. */
  lemma CachedAnswerIsFullRescan(from: nat, genesis: Chain, passes: seq<Pass>, tip: Chain, latest: nat,
                                 answers: nat -> Answer, hashlock: Hash)
    requires WellFormed(genesis) && ShallowRun(genesis, passes)
    requires Shallow(LastTip(genesis, passes), tip, latest) && Chains(answers)
    requires Scan(RunPasses(EmptyCache(from), from, passes), from, latest, answers).1.None?
    requires ChunksAgree(PassStart(RunPasses(EmptyCache(from), from, passes), from, latest), latest, 0, answers, tip)
    ensures var c := Scan(RunPasses(EmptyCache(from), from, passes), from, latest, answers).0;
      && from <= c.next && (c.next <= from || c.next <= |tip|)
      && Matches(c.locked, hashlock) == Matches(Logs(tip, from, c.next), hashlock)
  {
    RunKeepsSolid(EmptyCache(from), from, genesis, passes);
    AgreeingPassIsExact(RunPasses(EmptyCache(from), from, passes), from, LastTip(genesis, passes), tip, latest,
                        answers);
  }

  /** The matched ids are exactly the ids locked under `hashlock`, each once. */
  lemma {:induction false} MatchesComplete(s: seq<SeenLock>, hashlock: Hash)
    ensures forall id :: id in Matches(s, hashlock) <==> exists l :: l in s && l.hashlock == hashlock && l.swapId == id
    ensures forall i, j :: 0 <= i < j < |Matches(s, hashlock)| ==> Matches(s, hashlock)[i] != Matches(s, hashlock)[j]
  {
    if s != [] {
      var t, last := s[..|s| - 1], s[|s| - 1];
      MatchesComplete(t, hashlock);
      assert s == t + [last];
      forall id ensures id in Matches(s, hashlock) <==> exists l :: l in s && l.hashlock == hashlock && l.swapId == id {
        if l :| l in s && l.hashlock == hashlock && l.swapId == id {
          assert l in t || l == last;
        }
        if id in Matches(t, hashlock) {
          var l :| l in t && l.hashlock == hashlock && l.swapId == id;
          assert l in s;
        }
      }
    }
  }

  /** The chain of `n` blocks whose only log is `l`, in its own block. */
  function OneLog(n: nat, l: SeenLock): Chain {
    seq(n, k => if k == l.block then [l] else [])
  }

  lemma OneLogLogs(n: nat, l: SeenLock, a: nat, b: nat)
    requires a <= l.block < b <= n
    ensures Logs(OneLog(n, l), a, b) == [l]
  {
    var c := OneLog(n, l);
    LogsOfEmpty(c, a, l.block);
    LogsOfEmpty(c, l.block + 1, b);
    LogsSplit(c, a, l.block + 1, b);
  }

  lemma AddFreshOne(base: seq<SeenLock>, l: SeenLock)
    ensures AddFresh(base, [l]) == if exists x :: x in base && x.SameEvent(l) then base else base + [l]
  {
    assert [l][1..] == [];
  }

  lemma FirstReadOfMoved(a: SeenLock)
    requires a.block == 39_990
    ensures Commit(EmptyCache(0), 0, 39_999, Fetch(OneLog(40_001, a), 0, 39_999)) == Cache(40_000, [a])
  {
    OneLogLogs(40_001, a, 0, 40_000);
    AddFreshOne([], a);
  }

  lemma SecondReadOfMoved(a: SeenLock, b: SeenLock)
    requires a.block == 39_990 && b == a.(block := 40_000)
    ensures Commit(Cache(40_000, [a]), 40_000, 40_000, Fetch(OneLog(40_001, b), 40_000, 40_000)) == Cache(40_001, [a])
  {
    OneLogLogs(40_001, b, 40_000, 40_001);
    RetainAll([a], IsOutside(40_000, 40_000));
    assert a in [a] && a.SameEvent(b);
    AddFreshOne([a], b);
  }

  function NoLogs(n: nat): Chain { seq(n, _ => []) }

  /** The first chunk is served by `v`, all others by `w`. */
  function FirstThen(v: Chain, w: Chain): nat -> Answer { (i: nat) => if i == 0 then Served(v) else Served(w) }

  lemma OneLogWellFormed(n: nat, l: SeenLock)
    requires l.block < n
    ensures WellFormed(OneLog(n, l))
  {
    OneLogLogs(n, l, 0, n);
  }

  lemma NoLogsWellFormed(n: nat)
    ensures WellFormed(NoLogs(n))
  {
    LogsOfEmpty(NoLogs(n), 0, n);
  }

  /** The pass of the two runs below: 40001 blocks, so that the second chunk is block
      40000 alone, and a reorg that touches only the last 64 blocks. */
  lemma ReorgDuringPass(v: Chain, w: Chain)
    requires WellFormed(v) && WellFormed(w) && |v| == |w| == 40_001 && v[..39_937] == w[..39_937]
    ensures ShallowPass(v, Pass(Some(40_000), FirstThen(v, w), w))
  {
  }

  lemma SecondChunkOnly(v: Chain, w: Chain, c1: Cache)
    requires Commit(EmptyCache(0), 0, 39_999, Fetch(v, 0, 39_999)) == c1
    ensures Scan(EmptyCache(0), 0, 40_000, FirstThen(v, w))
      == (Commit(c1, 40_000, 40_000, Fetch(w, 40_000, 40_000)), None)
  {
    var answers := FirstThen(v, w);
    var c2 := Commit(c1, 40_000, 40_000, Fetch(w, 40_000, 40_000));
    ScanUnfold(EmptyCache(0), 0, 40_000, answers);
    ChunksStep(c1, 40_000, 40_000, 1, answers);
    assert Chunks(c2, 40_001, 40_000, 2, answers) == (c2, None);
  }

  /** A reorg in the middle of a pass can make deduplication swallow a moved event:
      the log read at block 39990 by the first chunk is re-read at block 40000 by the
      second and dropped as a duplicate. */
  lemma MidPassReorgSwallows(a: SeenLock, b: SeenLock)
    requires a.block == 39_990 && b == a.(block := 40_000)
    ensures var v, w := OneLog(40_001, a), OneLog(40_001, b);
      && WellFormed(v) && ShallowPass(v, Pass(Some(40_000), FirstThen(v, w), w))
      && Scan(EmptyCache(0), 0, 40_000, FirstThen(v, w)) == (Cache(40_001, [a]), None)
      && Logs(w, 0, 40_001) == [b]
  {
    var v, w := OneLog(40_001, a), OneLog(40_001, b);
    OneLogWellFormed(40_001, a);
    OneLogWellFormed(40_001, b);
    assert v[..39_937] == w[..39_937];
    ReorgDuringPass(v, w);
    FirstReadOfMoved(a);
    SecondReadOfMoved(a, b);
    SecondChunkOnly(v, w, Cache(40_000, [a]));
    OneLogLogs(40_001, b, 0, 40_001);
  }

  lemma SecondReadOfNothing(a: SeenLock)
    requires a.block == 39_990
    ensures Commit(Cache(40_000, [a]), 40_000, 40_000, Fetch(NoLogs(40_001), 40_000, 40_000)) == Cache(40_001, [a])
  {
    LogsOfEmpty(NoLogs(40_001), 40_000, 40_001);
    RetainAll([a], IsOutside(40_000, 40_000));
  }

  /** An event removed after its chunk was read stays, and the answer of this pass is
      wrong: an id is reported that no block of the chain holds. */
  lemma MidPassOrphanSurvives(a: SeenLock)
    requires a.block == 39_990
    ensures var v, w := OneLog(40_001, a), NoLogs(40_001);
      && WellFormed(v) && ShallowPass(v, Pass(Some(40_000), FirstThen(v, w), w))
      && Scan(EmptyCache(0), 0, 40_000, FirstThen(v, w)) == (Cache(40_001, [a]), None)
      && Matches([a], a.hashlock) == [a.swapId] && Matches(Logs(w, 0, 40_001), a.hashlock) == []
  {
    var v, w := OneLog(40_001, a), NoLogs(40_001);
    OneLogWellFormed(40_001, a);
    NoLogsWellFormed(40_001);
    SamePrefix(a);
    ReorgDuringPass(v, w);
    FirstReadOfMoved(a);
    SecondReadOfNothing(a);
    SecondChunkOnly(v, w, Cache(40_000, [a]));
    OrphanMatches(a);
  }

  lemma SamePrefix(a: SeenLock)
    requires a.block == 39_990
    ensures OneLog(40_001, a)[..39_937] == NoLogs(40_001)[..39_937]
  {
  }

  lemma OrphanMatches(a: SeenLock)
    ensures Matches([a], a.hashlock) == [a.swapId] && Matches(Logs(NoLogs(40_001), 0, 40_001), a.hashlock) == []
  {
    LogsOfEmpty(NoLogs(40_001), 0, 40_001);
    assert [a][..0] == [];
  }

  lemma {:induction false} LogsOfEmpty(c: Chain, a: nat, b: nat)
    requires b <= a || b <= |c|
    requires forall k :: a <= k < b ==> c[k] == []
    ensures Logs(c, a, b) == []
  {
    if a < b {
      LogsOfEmpty(c, a, b - 1);
    }
  }

  // ----- progress -----

  lemma {:induction false} ChunksAdvance(c: Cache, start: nat, latest: nat, used: nat, answers: nat -> Answer)
    requires start <= c.next && used <= MAX_CHUNKS_PER_CALL
    ensures var r := Chunks(c, start, latest, used, answers);
      && c.next <= r.0.next <= Max(c.next, latest + 1)
      && (r.1.None? ==> r.0.next >= Min(latest + 1, start + (MAX_CHUNKS_PER_CALL - used) * LOG_SCAN_CHUNK))
    decreases MAX_CHUNKS_PER_CALL - used
  {
    if start <= latest && used < MAX_CHUNKS_PER_CALL && answers(used).Served? {
      var end := ChunkEnd(start, latest);
      ChunksAdvance(Commit(c, start, end, Fetch(answers(used).view, start, end)), end + 1, latest, used + 1, answers);
    }
  }

  /** The blocks one error-free pass is sure to gain. */
  const PASS_GAIN: nat := MAX_CHUNKS_PER_CALL * LOG_SCAN_CHUNK - REORG_SAFETY_WINDOW

  /** No pass ever loses covered blocks it was not told to prune, and an error-free
      one reaches the head or gains at least `PASS_GAIN` blocks. */
  lemma PassAdvances(c: Cache, from: nat, latest: nat, answers: nat -> Answer)
    requires from <= c.next
    ensures var c0 := Pruned(c, latest, from);
      var r := Scan(c, from, latest, answers);
      && from <= c0.next <= r.0.next <= Max(c0.next, latest + 1)
      && (r.1.None? ==> r.0.next > latest || r.0.next >= c0.next + PASS_GAIN)
  {
    var c0 := Pruned(c, latest, from);
    ChunksAdvance(c0, RewindStart(c0.next, from, REORG_SAFETY_WINDOW), latest, 0, answers);
  }

  ghost predicate ErrorFree(c: Cache, from: nat, latest: nat, calls: seq<nat -> Answer>)
    decreases calls
  {
    calls == [] || (
      var r := Scan(c, from, latest, calls[0]);
      r.1.None? && ErrorFree(r.0, from, latest, calls[1..]))
  }

  function AfterCalls(c: Cache, from: nat, latest: nat, calls: seq<nat -> Answer>): Cache
    decreases calls
  {
    if calls == [] then c else AfterCalls(Scan(c, from, latest, calls[0]).0, from, latest, calls[1..])
  }

  lemma OneCallLess(n: nat, gain: nat)
    requires n > 0
    ensures n * gain == gain + (n - 1) * gain
  {
  }

  /** Under a fixed head, enough error-free calls to cover the range at
      `PASS_GAIN` blocks each resolve the hashlock: the scan has reached the head. */
  lemma {:induction false} CallsReachHead(c: Cache, from: nat, latest: nat, calls: seq<nat -> Answer>)
    requires from <= c.next && ErrorFree(c, from, latest, calls)
    requires from <= latest ==> c.next <= latest + 1
    requires c.next + |calls| * PASS_GAIN > latest
    ensures SatSub(AfterCalls(c, from, latest, calls).next, 1) >= latest
    decreases calls
  {
    if calls != [] {
      PassAdvances(c, from, latest, calls[0]);
      var c' := Scan(c, from, latest, calls[0]).0;
      OneCallLess(|calls|, PASS_GAIN);
      CallsReachHead(c', from, latest, calls[1..]);
    }
  }

  lemma CeilingCovers(blocks: nat, gain: nat)
    requires gain > 0
    ensures (blocks + gain - 1) / gain * gain >= blocks
  {
    var q := (blocks + gain - 1) / gain;
    assert blocks + gain - 1 == q * gain + (blocks + gain - 1) % gain;
  }

  /** A new cache resolves any hashlock within the range divided by `PASS_GAIN`,
      rounded up, error-free calls under a fixed head. */
  lemma ResolvesWithin(from: nat, latest: nat, calls: seq<nat -> Answer>)
    requires from <= latest && ErrorFree(EmptyCache(from), from, latest, calls)
    requires |calls| == (latest - from + 1 + 639_935) / 639_936
    ensures SatSub(AfterCalls(EmptyCache(from), from, latest, calls).next, 1) >= latest
  {
    CeilingCovers(latest - from + 1, PASS_GAIN);
    CallsReachHead(EmptyCache(from), from, latest, calls);
  }

  /** Every request asks for 40000 blocks, or for fewer up to the head. */
  lemma RequestSize(start: nat, latest: nat)
    requires start <= latest
    ensures var end := ChunkEnd(start, latest);
      start <= end <= latest && (end - start + 1 == 40_000 || (end == latest && end - start + 1 < 40_000))
  {
  }

  // ----- the in-place cache -----

  class EthReader {
    const fromBlock: nat
    var nextBlock: nat
    var locked: seq<SeenLock>

    function View(): Cache
      reads this
    {
      Cache(nextBlock, locked)
    }

    constructor (fromBlock: nat)
      ensures this.fromBlock == fromBlock && View() == EmptyCache(fromBlock)
    {
      this.fromBlock := fromBlock;
      nextBlock := fromBlock;
      locked := [];
    }

    method ReconcileRange(start: nat, end: nat, news: seq<SeenLock>)
      modifies this`locked
      ensures locked == Reconciled(old(locked), start, end, news)
    {
      locked := Retain(locked, IsOutside(start, end));
      var i := 0;
      while i < |news|
        invariant 0 <= i <= |news|
        invariant AddFresh(locked, news[i..]) == Reconciled(old(locked), start, end, news)
      {
        var f := news[i];
        assert news[i..][0] == f && news[i..][1..] == news[i + 1..];
        var dup := exists l :: l in locked && l.SameEvent(f);
        if !dup {
          locked := locked + [f];
        }
        i := i + 1;
      }
    }

    method PruneHeadRegression(latest: nat)
      modifies this
      ensures View() == Pruned(old(View()), latest, fromBlock)
    {
      var highWater := SatSub(nextBlock, 1);
      if latest < highWater {
        locked := Retain(locked, IsBelow(latest + 1));
        nextBlock := Max(latest + 1, fromBlock);
      }
    }

    method CommitChunk(start: nat, end: nat, news: seq<SeenLock>)
      modifies this
      ensures View() == Commit(old(View()), start, end, news)
    {
      ReconcileRange(start, end, news);
      if end + 1 > nextBlock {
        nextBlock := end + 1;
      }
    }

    /** The chunk loop; each served chunk is committed before the next is asked for. */
    method ScanChunks(start0: nat, latest: nat, answers: nat -> Answer) returns (failed: Option<string>)
      modifies this
      ensures (View(), failed) == Chunks(old(View()), start0, latest, 0, answers)
    {
      var start, used := start0, 0;
      ghost var goal := Chunks(View(), start0, latest, 0, answers);
      while start <= latest && used < MAX_CHUNKS_PER_CALL
        invariant 0 <= used <= MAX_CHUNKS_PER_CALL
        invariant Chunks(View(), start, latest, used, answers) == goal
      {
        var end := ChunkEnd(start, latest);
        match answers(used) {
          case Failed(e) =>
            ChunksFail(View(), start, latest, used, answers);
            return Some(e);
          case Served(v) =>
            ghost var c := View();
            ChunksStep(c, start, latest, used, answers);
            CommitChunk(start, end, Fetch(v, start, end));
            assert View() == Commit(c, start, end, Fetch(v, start, end));
        }
        used := used + 1;
        start := end + 1;
      }
      return None;
    }

    method MatchedIds(hashlock: Hash) returns (matched: seq<Hash>)
      ensures matched == Matches(locked, hashlock)
    {
      matched := [];
      var i := 0;
      while i < |locked|
        invariant 0 <= i <= |locked|
        invariant matched == Matches(locked[..i], hashlock)
      {
        var l := locked[i];
        assert locked[..i + 1][..i] == locked[..i];
        if l.hashlock == hashlock && l.swapId !in matched {
          matched := matched + [l.swapId];
        }
        i := i + 1;
      }
      assert locked[..i] == locked;
    }

    /** One bounded pass under the cache lock. */
    method RunScan(head: Option<nat>, hashlock: Hash, answers: nat -> Answer) returns (r: Result<ScanPass, string>)
      modifies this
      ensures head.None? ==> r.Err? && View() == old(View())
      ensures head.Some? ==>
        var s := Scan(old(View()), fromBlock, head.value, answers);
        && View() == s.0
        && (r.Ok? <==> s.1.None?)
        && (r.Ok? ==>
            r.value == ScanPass(Matches(locked, hashlock), SatSub(nextBlock, 1), SatSub(nextBlock, 1) >= head.value))
    {
      if head.None? {
        return Err("eth_blockNumber failed");
      }
      var latest := head.value;
      PruneHeadRegression(latest);
      var failed := ScanChunks(RewindStart(nextBlock, fromBlock, REORG_SAFETY_WINDOW), latest, answers);
      if failed.Some? {
        return Err(failed.value);
      }
      var matched := MatchedIds(hashlock);
      var coverageTo := SatSub(nextBlock, 1);
      return Ok(ScanPass(matched, coverageTo, coverageTo >= latest));
    }
  }
}
