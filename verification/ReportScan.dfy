/** Reading the logs a report counts (src/eth/report.rs): chunking, halving and
    backoff (`scan_range`), the anchor probes (`anchor_in`, `probe_canaries`), the
    refusal rule (`scan_decision`) and what a corroborated answer proves.

    A backend of the load-balanced endpoint holds the logs of one contiguous block
    interval and answers empty elsewhere. One batch is answered by one backend. */
module ReportScan {
  import opened Common
  import T = Tally

  const MIN_CHUNK_BLOCKS: nat := 1_000
  const MAX_RATE_LIMIT_RETRIES: nat := 6
  const MAX_CORROBORATION_ATTEMPTS: nat := 6
  const CANARY_PROBE_BLOCKS: nat := 16
  const CANARY_PROBE_ATTEMPTS: nat := 5
  const CANARY_RATE_LIMIT_RETRIES: nat := 3
  const U64_MAX: nat := 0xFFFF_FFFF_FFFF_FFFF

  datatype RpcFailure = RateLimited | RangeTooWide | OtherFailure

  datatype ChainLog = ChainLog(block: nat, address: nat, event: T.Event)

  /** The logs of every block, in order. */
  type Chain = nat -> seq<ChainLog>

  ghost predicate WellFormed(chain: Chain) {
    forall b, l :: l in chain(b) ==> l.block == b
  }

  datatype Backend = Backend(lo: nat, hi: nat) {
    predicate Holds(b: nat) { lo <= b <= hi }
  }

  type Filter = ChainLog -> bool

  function Keep(s: seq<ChainLog>, f: Filter): seq<ChainLog> {
    if s == [] then [] else Keep(s[..|s| - 1], f) + (if f(s[|s| - 1]) then [s[|s| - 1]] else [])
  }

  /** The logs of blocks `[a, b)`. */
  function Cat(chain: Chain, a: nat, b: nat): seq<ChainLog> {
    if b <= a then [] else Cat(chain, a, b - 1) + chain(b - 1)
  }

  function Matching(chain: Chain, f: Filter): Chain { (b: nat) => Keep(chain(b), f) }

  /** The matching logs of blocks `[a, b)`. */
  function Range(chain: Chain, a: nat, b: nat, f: Filter): seq<ChainLog> { Cat(Matching(chain, f), a, b) }

  /** What a backend answers for blocks `[a, b)`. */
  function Answer(chain: Chain, k: Backend, a: nat, b: nat, f: Filter): seq<ChainLog> {
    Range(chain, Max(a, k.lo), Min(b, k.hi + 1), f)
  }

  function Events(s: seq<ChainLog>): seq<T.Event> { seq(|s|, i requires 0 <= i < |s| => s[i].event) }

  lemma EventsConcat(s: seq<ChainLog>, t: seq<ChainLog>)
    ensures Events(s + t) == Events(s) + Events(t)
  {
  }

  // ----- spans -----

  datatype Span = Span(from: nat, to: nat)

  /** Non-empty consecutive spans from `from` up to, not including, `end`: every
      block of `[from, end)` lies in exactly one of them. */
  predicate Tiles(spans: seq<Span>, from: nat, end: nat) {
    if spans == [] then end <= from else
      var last := spans[|spans| - 1];
      from <= last.from <= last.to && last.to + 1 == end && Tiles(spans[..|spans| - 1], from, last.from)
  }

  lemma TilesAppend(spans: seq<Span>, from: nat, end: nat, s: Span)
    requires Tiles(spans, from, end) && from <= end && s.from == end && s.from <= s.to
    ensures Tiles(spans + [s], from, s.to + 1)
  {
    assert (spans + [s])[..|spans + [s]| - 1] == spans;
  }

  lemma {:induction false} TilesTail(spans: seq<Span>, from: nat, end: nat)
    requires Tiles(spans, from, end) && spans != []
    ensures from == spans[0].from <= spans[0].to < end && Tiles(spans[1..], spans[0].to + 1, end)
  {
    if |spans| > 1 {
      var init := spans[..|spans| - 1];
      TilesTail(init, from, spans[|spans| - 1].from);
      assert spans[1..][..|spans[1..]| - 1] == init[1..];
    }
  }

  function SatAdd(a: nat, b: nat): nat { Min(a + b, U64_MAX) }

  /** A span of exactly `chunk` blocks, or a shorter one that ends the range. */
  predicate FullOrLast(s: Span, to: nat, chunk: nat) {
    s.to - s.from + 1 == chunk || (s.to == to && s.to - s.from + 1 < chunk)
  }

  method BlockChunks(from: nat, to: nat, chunk0: nat) returns (out: seq<Span>)
    requires to <= U64_MAX
    ensures Tiles(out, from, to + 1)
    ensures forall s :: s in out ==> FullOrLast(s, to, Max(chunk0, 1))
  {
    var chunk := Max(chunk0, 1);
    out := [];
    var start := from;
    while start <= to
      invariant from <= start <= Max(from, to + 1) && Tiles(out, from, start)
      invariant forall s :: s in out ==> FullOrLast(s, to, chunk)
    {
      var end := Min(SatAdd(start, chunk - 1), to);
      TilesAppend(out, from, start, Span(start, end));
      out := out + [Span(start, end)];
      start := end + 1;
      if end == U64_MAX {
        break;
      }
    }
  }

  /** Tiles cover each block of the range exactly once. */
  lemma {:induction false} TilesCoverOnce(spans: seq<Span>, from: nat, end: nat, b: nat)
    requires Tiles(spans, from, end) && from <= b < end
    ensures exists i :: 0 <= i < |spans| && spans[i].from <= b <= spans[i].to
    ensures forall i, j :: 0 <= i < j < |spans| && spans[i].from <= b <= spans[i].to ==>
      !(spans[j].from <= b <= spans[j].to)
  {
    var init, last := spans[..|spans| - 1], spans[|spans| - 1];
    if b < last.from {
      TilesCoverOnce(init, from, last.from, b);
      var i :| 0 <= i < |init| && init[i].from <= b <= init[i].to;
      assert spans[i] == init[i];
    } else {
      assert spans[|spans| - 1].from <= b <= spans[|spans| - 1].to;
      forall i | 0 <= i < |init| ensures spans[i].to < last.from { TilesBelow(init, from, last.from, i); }
    }
  }

  lemma {:induction false} TilesBelow(spans: seq<Span>, from: nat, end: nat, i: nat)
    requires Tiles(spans, from, end) && i < |spans|
    ensures spans[i].to < end
  {
    if i < |spans| - 1 { TilesBelow(spans[..|spans| - 1], from, spans[|spans| - 1].from, i); }
  }

  // ----- canaries -----

  datatype Canary = Canary(block: nat, address: nat, expected: nat)

  function ByAddress(address: nat): Filter { (l: ChainLog) => l.address == address }

  /** A reply to one batch: an RPC failure, or one backend's answers, where single
      canaries may still error. */
  datatype Reply = Fails(kind: RpcFailure) | Serves(k: Backend, canaryDown: nat -> bool)

  function Observed(chain: Chain, k: Backend, c: Canary): nat {
    |Answer(chain, k, c.block, c.block + 1, ByAddress(c.address))|
  }

  predicate Satisfies(chain: Chain, k: Backend, c: Canary) { Observed(chain, k, c) >= c.expected }

  /** `is_corroborated` on the scores of a batch. */
  predicate Corroborates(chain: Chain, r: Reply, canaries: seq<Canary>)
    requires r.Serves?
  {
    forall i :: 0 <= i < |canaries| ==>
      (if r.canaryDown(i) then 0 else Observed(chain, r.k, canaries[i])) >= canaries[i].expected
  }

  /** An anchor with the true log count of its block is satisfied exactly by the
      backends that hold the block. */
  lemma AnchorIffHeld(chain: Chain, k: Backend, c: Canary)
    requires TrueAnchor(chain, c)
    ensures Satisfies(chain, k, c) <==> k.Holds(c.block)
  {
    assert Range(chain, c.block, c.block, ByAddress(c.address)) == [];
    if k.Holds(c.block) {
      assert Answer(chain, k, c.block, c.block + 1, ByAddress(c.address))
        == [] + Keep(chain(c.block), ByAddress(c.address));
    }
  }

  /** With true anchors a batch is corroborated exactly if no canary failed and the
      backend that served it holds every anchor's block. */
  lemma CorroboratesIff(chain: Chain, r: Reply, canaries: seq<Canary>)
    requires r.Serves? && forall c :: c in canaries ==> TrueAnchor(chain, c)
    ensures Corroborates(chain, r, canaries) <==>
      forall i: nat :: i < |canaries| ==> !r.canaryDown(i) && r.k.Holds(canaries[i].block)
  {
    forall i: nat | i < |canaries|
      ensures canaries[i].expected > 0 && (Satisfies(chain, r.k, canaries[i]) <==> r.k.Holds(canaries[i].block))
    {
      assert canaries[i] in canaries;
      AnchorIffHeld(chain, r.k, canaries[i]);
    }
  }

  /** A canary that is satisfied and expects anything proves its block is held. */
  lemma CanaryProvesBlock(chain: Chain, k: Backend, c: Canary)
    requires Satisfies(chain, k, c) && c.expected > 0
    ensures k.Holds(c.block)
  {
  }

  // ----- scan_range -----

  /** One accepted response: its span and the backend that served it. */
  datatype Accepted = Accepted(span: Span, k: Backend)

  function Logs(chain: Chain, acc: seq<Accepted>, f: Filter): seq<ChainLog> {
    if acc == [] then [] else
      var last := acc[|acc| - 1];
      Logs(chain, acc[..|acc| - 1], f) + Answer(chain, last.k, last.span.from, last.span.to + 1, f)
  }

  function Spans(acc: seq<Accepted>): seq<Span> {
    if acc == [] then [] else Spans(acc[..|acc| - 1]) + [acc[|acc| - 1].span]
  }

  datatype ScanError = EthRpc | Uncorroborated

  /** `get_logs` for one span: up to six batches until one corroborates. */
  method Fetch(chain: Chain, canaries: seq<Canary>, replies: nat -> Reply, next0: nat)
    returns (k: Option<Backend>, failure: Option<RpcFailure>, next: nat)
    ensures next0 < next <= next0 + MAX_CORROBORATION_ATTEMPTS
    ensures k.Some? ==>
      && replies(next - 1).Serves? && replies(next - 1).k == k.value && Corroborates(chain, replies(next - 1), canaries)
    ensures k.Some? ==> failure.None?
    ensures failure.Some? ==> replies(next - 1) == Fails(failure.value)
    ensures k.None? && failure.None? ==>
      && next == next0 + MAX_CORROBORATION_ATTEMPTS
      && forall i :: next0 <= i < next ==> replies(i).Serves? && !Corroborates(chain, replies(i), canaries)
  {
    k, failure, next := None, None, next0;
    var attempt := 0;
    while attempt < MAX_CORROBORATION_ATTEMPTS
      invariant 0 <= attempt <= MAX_CORROBORATION_ATTEMPTS && next == next0 + attempt
      invariant k.None? && failure.None?
      invariant forall i :: next0 <= i < next ==> replies(i).Serves? && !Corroborates(chain, replies(i), canaries)
    {
      var r := replies(next);
      next := next + 1;
      if r.Fails? {
        failure := Some(r.kind);
        return;
      }
      if Corroborates(chain, r, canaries) {
        k := Some(r.k);
        return;
      }
      attempt := attempt + 1;
    }
  }

  ghost predicate AllCorroborated(chain: Chain, acc: seq<Accepted>, canaries: seq<Canary>) {
    forall a, c :: a in acc && c in canaries ==> Satisfies(chain, a.k, c)
  }

  /** What the scan has established once every block below `cursor` is read. */
  ghost predicate ReadUpTo(chain: Chain, acc: seq<Accepted>, from: nat, cursor: nat, canaries: seq<Canary>) {
    from <= cursor && Tiles(Spans(acc), from, cursor) && AllCorroborated(chain, acc, canaries)
  }

  lemma AcceptOne(chain: Chain, acc: seq<Accepted>, a: Accepted, from: nat, canaries: seq<Canary>, r: Reply)
    requires ReadUpTo(chain, acc, from, a.span.from, canaries) && a.span.from <= a.span.to
    requires r.Serves? && r.k == a.k && Corroborates(chain, r, canaries)
    ensures ReadUpTo(chain, acc + [a], from, a.span.to + 1, canaries)
  {
    TilesAppend(Spans(acc), from, a.span.from, a.span);
    assert (acc + [a])[..|acc + [a]| - 1] == acc;
  }

  /** What the accepted responses delivered, in order. */
  function Fed(answers: Accepted -> seq<T.Event>, acc: seq<Accepted>): seq<T.Event> {
    if acc == [] then [] else Fed(answers, acc[..|acc| - 1]) + answers(acc[|acc| - 1])
  }

  function Answers(chain: Chain, f: Filter): Accepted -> seq<T.Event> {
    (a: Accepted) => Events(Answer(chain, a.k, a.span.from, a.span.to + 1, f))
  }

  lemma {:induction false} FedAreLogs(chain: Chain, f: Filter, acc: seq<Accepted>)
    ensures Fed(Answers(chain, f), acc) == Events(Logs(chain, acc, f))
  {
    if acc != [] {
      var init, last := acc[..|acc| - 1], acc[|acc| - 1];
      FedAreLogs(chain, f, init);
      EventsConcat(Logs(chain, init, f), Answer(chain, last.k, last.span.from, last.span.to + 1, f));
    }
  }

  lemma IngestOne(answers: Accepted -> seq<T.Event>, acc: seq<Accepted>, a: Accepted, t: T.Tally)
    ensures T.IngestAll(T.IngestAll(t, Fed(answers, acc)), answers(a)) == T.IngestAll(t, Fed(answers, acc + [a]))
  {
    assert (acc + [a])[..|acc + [a]| - 1] == acc;
    T.IngestConcat(t, Fed(answers, acc), answers(a));
  }

  method Feed(tally: T.SwapTally, answers: Accepted -> seq<T.Event>, acc: seq<Accepted>, a: Accepted, ghost t0: T.Tally)
    requires tally.View() == T.IngestAll(t0, Fed(answers, acc))
    modifies tally
    ensures tally.View() == T.IngestAll(t0, Fed(answers, acc + [a]))
  {
    IngestOne(answers, acc, a, t0);
    tally.IngestLogs(answers(a));
  }

  /** Mid-scan: the blocks below `cursor` are read, the pending spans tile the rest. */
  ghost predicate Scanning(chain: Chain, acc: seq<Accepted>, pending: seq<Span>, from: nat, cursor: nat, to: nat,
                           canaries: seq<Canary>) {
    && Tiles(pending, cursor, to + 1) && cursor <= Max(from, to + 1)
    && ReadUpTo(chain, acc, from, cursor, canaries)
  }

  lemma NextSpan(chain: Chain, acc: seq<Accepted>, pending: seq<Span>, from: nat, cursor: nat, to: nat,
                 canaries: seq<Canary>)
    requires Scanning(chain, acc, pending, from, cursor, to, canaries) && pending != []
    ensures pending[0].from == cursor <= pending[0].to <= to
  {
    TilesTail(pending, cursor, to + 1);
  }

  lemma AcceptSpan(chain: Chain, acc: seq<Accepted>, pending: seq<Span>, from: nat, cursor: nat, to: nat,
                   canaries: seq<Canary>, r: Reply)
    requires Scanning(chain, acc, pending, from, cursor, to, canaries) && pending != []
    requires r.Serves? && Corroborates(chain, r, canaries)
    ensures Scanning(chain, acc + [Accepted(pending[0], r.k)], pending[1..], from, pending[0].to + 1, to, canaries)
  {
    TilesTail(pending, cursor, to + 1);
    AcceptOne(chain, acc, Accepted(pending[0], r.k), from, canaries, r);
  }

  lemma ScanDone(chain: Chain, acc: seq<Accepted>, from: nat, cursor: nat, to: nat, canaries: seq<Canary>)
    requires Scanning(chain, acc, [], from, cursor, to, canaries)
    ensures ReadUpTo(chain, acc, from, Max(from, to + 1), canaries)
  {
  }

  /** How many of the replies `[a, b)` failed in this way. */
  function Failures(replies: nat -> Reply, kind: RpcFailure, a: nat, b: nat): nat
    decreases b
  {
    if b <= a then 0 else Failures(replies, kind, a, b - 1) + (if replies(b - 1) == Fails(kind) then 1 else 0)
  }

  /** The last six replies were served without their canaries. */
  predicate LeftUnproven(chain: Chain, replies: nat -> Reply, next: nat, canaries: seq<Canary>) {
    && next >= 6
    && forall i: nat :: next - 6 <= i < next ==>
         replies(i).Serves? && !Corroborates(chain, replies(i), canaries)
  }

  /** The last reply failed and no remedy was left: seven rate limits, or a range
      rejected although it was as small as it gets, or another failure. */
  predicate GivenUp(replies: nat -> Reply, a: nat, next: nat, chunk0: nat) {
    && a < next && replies(next - 1).Fails?
    && match replies(next - 1).kind
       case RateLimited => Failures(replies, RateLimited, a, next) > 6
       case RangeTooWide => chunk0 <= 1_000 || Failures(replies, RangeTooWide, a, next) >= 2
       case OtherFailure => true
  }

  /** The remedies used so far: retries of rate limits, and smaller chunks. */
  predicate Remedies(replies: nat -> Reply, a: nat, next: nat, retries: nat, chunk: nat, chunk0: nat) {
    && retries <= Failures(replies, RateLimited, a, next)
    && (chunk == Max(chunk0, 1) || Failures(replies, RangeTooWide, a, next) >= 1)
  }

  lemma {:induction false} FailuresGrow(replies: nat -> Reply, kind: RpcFailure, a: nat, m: nat, b: nat)
    requires a <= m <= b
    ensures Failures(replies, kind, a, m) <= Failures(replies, kind, a, b)
    ensures m < b && replies(b - 1) == Fails(kind) ==> Failures(replies, kind, a, m) < Failures(replies, kind, a, b)
  {
    if m < b { FailuresGrow(replies, kind, a, m, b - 1); }
  }

  /** This failure is one that the scan does not try again. */
  predicate NoRemedy(r: Reply, retries: nat, chunk: nat) {
    && r.Fails?
    && (r.kind.RateLimited? ==> retries >= MAX_RATE_LIMIT_RETRIES)
    && (r.kind.RangeTooWide? ==> chunk <= MIN_CHUNK_BLOCKS)
  }

  lemma RemediesGrow(replies: nat -> Reply, a: nat, m: nat, b: nat, retries: nat, chunk: nat, chunk0: nat)
    requires a <= m <= b && Remedies(replies, a, m, retries, chunk, chunk0)
    ensures Remedies(replies, a, b, retries, chunk, chunk0)
    ensures m < b && replies(b - 1) == Fails(RateLimited) ==> Remedies(replies, a, b, retries + 1, chunk, chunk0)
    ensures m < b && replies(b - 1) == Fails(RangeTooWide) ==> Failures(replies, RangeTooWide, a, b) >= 1
    ensures m < b && NoRemedy(replies(b - 1), retries, chunk) ==> GivenUp(replies, a, b, chunk0)
  {
    FailuresGrow(replies, RateLimited, a, m, b);
    FailuresGrow(replies, RangeTooWide, a, m, b);
  }

  /** What one fetch adds to the remedies used, or why none is left. */
  lemma FetchRemedies(chain: Chain, canaries: seq<Canary>, replies: nat -> Reply, a: nat, asked: nat, next: nat,
                      k: Option<Backend>, failure: Option<RpcFailure>, retries: nat, chunk: nat, chunk0: nat)
    requires a <= asked < next && Remedies(replies, a, asked, retries, chunk, chunk0)
    requires failure.Some? ==> replies(next - 1) == Fails(failure.value)
    requires k.None? && failure.None? ==>
      && next == asked + MAX_CORROBORATION_ATTEMPTS
      && forall i :: asked <= i < next ==> replies(i).Serves? && !Corroborates(chain, replies(i), canaries)
    ensures Remedies(replies, a, next, retries, chunk, chunk0) && Remedies(replies, a, next, 0, chunk, chunk0)
    ensures failure.Some? ==>
      forall r: nat, c: nat :: Remedied(failure.value, retries, chunk, r, c) ==>
        Remedies(replies, a, next, r, c, chunk0)
    ensures failure.Some? && NoRemedy(replies(next - 1), retries, chunk) ==> GivenUp(replies, a, next, chunk0)
    ensures k.None? && failure.None? ==>
      a + MAX_CORROBORATION_ATTEMPTS <= next && LeftUnproven(chain, replies, next, canaries)
  {
    RemediesGrow(replies, a, asked, next, retries, chunk, chunk0);
  }

  /** The remedy for a failure: one more retry, or half the chunk. */
  predicate Remedied(kind: RpcFailure, retries: nat, chunk: nat, retries': nat, chunk': nat) {
    || (kind.RateLimited? && retries < MAX_RATE_LIMIT_RETRIES && retries' == retries + 1 && chunk' == chunk)
    || (kind.RangeTooWide? && retries' == retries && MIN_CHUNK_BLOCKS <= chunk' < chunk && chunk <= 2 * chunk' + 1)
  }

  /** Tries again after a failure: waits out a rate limit, or asks for half as much. */
  method Recover(kind: RpcFailure, retries: nat, chunk: nat, spans: seq<Span>, to: nat)
    returns (again: bool, retries': nat, chunk': nat, spans': seq<Span>)
    requires to <= U64_MAX && spans != [] && Tiles(spans, spans[0].from, to + 1)
    ensures again ==> Remedied(kind, retries, chunk, retries', chunk') && Tiles(spans', spans[0].from, to + 1)
    ensures !again ==> NoRemedy(Fails(kind), retries, chunk)
  {
    again, retries', chunk', spans' := true, retries, chunk, spans;
    if kind == RateLimited && retries < MAX_RATE_LIMIT_RETRIES {
      retries' := retries + 1;
    } else if kind == RangeTooWide && chunk > MIN_CHUNK_BLOCKS {
      chunk' := Max(chunk / 2, MIN_CHUNK_BLOCKS);
      spans' := BlockChunks(spans[0].from, to, chunk');
    } else {
      again := false;
    }
  }

  /** Scans `[from, to]` in chunks, halving on a range rejection and backing off on
      a rate limit. Terminates for every pattern of replies; on success the
      accepted spans tile the range, each was corroborated, and exactly their logs
      went into the tally. */
  method ScanRange(tally: T.SwapTally, chain: Chain, from: nat, to: nat, answers: Accepted -> seq<T.Event>, chunk0: nat,
                   canaries: seq<Canary>, replies: nat -> Reply, next0: nat)
    returns (r: Result<(), ScanError>, acc: seq<Accepted>, next: nat)
    requires to <= U64_MAX
    modifies tally
    ensures r.Ok? ==> ReadUpTo(chain, acc, from, Max(from, to + 1), canaries)
    ensures tally.View() == T.IngestAll(old(tally.View()), Fed(answers, acc))
    ensures r == Err(Uncorroborated) ==>
      next0 + MAX_CORROBORATION_ATTEMPTS <= next && LeftUnproven(chain, replies, next, canaries)
    ensures r == Err(EthRpc) ==> GivenUp(replies, next0, next, chunk0)
    ensures next0 <= next
  {
    acc, next := [], next0;
    var chunk := Max(chunk0, 1);
    var spans := BlockChunks(from, to, chunk);
    var retries := 0;
    ghost var cursor := from;
    ghost var t0 := tally.View();
    while spans != []
      invariant Scanning(chain, acc, spans, from, cursor, to, canaries)
      invariant tally.View() == T.IngestAll(t0, Fed(answers, acc))
      invariant 0 <= retries <= MAX_RATE_LIMIT_RETRIES && chunk >= 1 && next0 <= next
      invariant Remedies(replies, next0, next, retries, chunk, chunk0)
      decreases 1 + to - cursor, chunk, MAX_RATE_LIMIT_RETRIES - retries
    {
      NextSpan(chain, acc, spans, from, cursor, to, canaries);
      var span := spans[0];
      ghost var asked := next;
      var k, failure;
      k, failure, next := Fetch(chain, canaries, replies, next);
      FetchRemedies(chain, canaries, replies, next0, asked, next, k, failure, retries, chunk, chunk0);
      if failure.Some? {
        var again;
        again, retries, chunk, spans := Recover(failure.value, retries, chunk, spans, to);
        if !again {
          return Err(EthRpc), acc, next;
        }
        continue;
      }
      if k.None? {
        return Err(Uncorroborated), acc, next;
      }
      var a := Accepted(span, k.value);
      AcceptSpan(chain, acc, spans, from, cursor, to, canaries, replies(next - 1));
      Feed(tally, answers, acc, a, t0);
      acc := acc + [a];
      spans := spans[1..];
      cursor := span.to + 1;
      retries := 0;
    }
    ScanDone(chain, acc, from, cursor, to, canaries);
    return Ok(()), acc, next;
  }

  // ----- what a corroborated scan proves -----

  function InBlocks(lo: nat, hi: nat): Filter { (l: ChainLog) => lo <= l.block < hi }

  lemma {:induction false} KeepConcat(s: seq<ChainLog>, t: seq<ChainLog>, f: Filter)
    ensures Keep(s + t, f) == Keep(s, f) + Keep(t, f)
  {
    if t == [] {
      assert s + t == s;
    } else {
      assert (s + t)[..|s + t| - 1] == s + t[..|t| - 1];
      KeepConcat(s, t[..|t| - 1], f);
    }
  }

  lemma {:induction false} KeepMember(s: seq<ChainLog>, f: Filter, l: ChainLog)
    ensures l in Keep(s, f) <==> l in s && f(l)
  {
    if s != [] {
      KeepMember(s[..|s| - 1], f, l);
      assert s == s[..|s| - 1] + [s[|s| - 1]];
    }
  }

  lemma {:induction false} KeepSame(s: seq<ChainLog>, all: bool, f: Filter)
    requires forall l :: l in s ==> (f(l) <==> all)
    ensures Keep(s, f) == if all then s else []
  {
    if s != [] {
      KeepSame(s[..|s| - 1], all, f);
      assert s == s[..|s| - 1] + [s[|s| - 1]];
    }
  }

  lemma {:induction false} CatSplit(chain: Chain, a: nat, m: nat, b: nat)
    requires a <= m <= b
    ensures Cat(chain, a, m) + Cat(chain, m, b) == Cat(chain, a, b)
  {
    if m < b {
      CatSplit(chain, a, m, b - 1);
      assert Cat(chain, a, m) + Cat(chain, m, b) == (Cat(chain, a, m) + Cat(chain, m, b - 1)) + chain(b - 1);
    }
  }

  /** A log is in the range exactly if its block has it and it matches. */
  lemma {:induction false} RangeMember(chain: Chain, a: nat, b: nat, f: Filter, l: ChainLog)
    requires WellFormed(chain)
    ensures l in Range(chain, a, b, f) <==> a <= l.block < b && l in chain(l.block) && f(l)
  {
    if a < b {
      RangeMember(chain, a, b - 1, f, l);
      KeepMember(chain(b - 1), f, l);
    }
  }

  lemma BlockClip(chain: Chain, b: nat, f: Filter, lo: nat, hi: nat)
    requires WellFormed(chain)
    ensures Keep(Keep(chain(b), f), InBlocks(lo, hi)) == if lo <= b < hi then Keep(chain(b), f) else []
  {
    forall l | l in Keep(chain(b), f) ensures l.block == b { KeepMember(chain(b), f, l); }
    KeepSame(Keep(chain(b), f), lo <= b < hi, InBlocks(lo, hi));
  }

  /** The filter keeps all of block `b`, or drops all of it. */
  predicate KeepsWhole(chain: Chain, g: Filter, b: nat, lo: nat, hi: nat) {
    Keep(chain(b), g) == if lo <= b < hi then chain(b) else []
  }

  lemma KeepTwo(s: seq<ChainLog>, t: seq<ChainLog>, f: Filter, s': seq<ChainLog>, t': seq<ChainLog>)
    requires Keep(s, f) == s' && Keep(t, f) == t'
    ensures Keep(s + t, f) == s' + t'
  {
    KeepConcat(s, t, f);
  }

  /** Clipping by a filter that keeps or drops whole blocks. */
  lemma {:induction false} CatClip(chain: Chain, g: Filter, a: nat, b: nat, lo: nat, hi: nat)
    requires forall b: nat :: KeepsWhole(chain, g, b, lo, hi)
    ensures Keep(Cat(chain, a, b), g) == Cat(chain, Max(a, lo), Min(b, hi))
  {
    if a < b {
      CatClip(chain, g, a, b - 1, lo, hi);
      assert KeepsWhole(chain, g, b - 1, lo, hi);
      KeepTwo(Cat(chain, a, b - 1), chain(b - 1), g, Cat(chain, Max(a, lo), Min(b - 1, hi)),
              if lo <= b - 1 < hi then chain(b - 1) else []);
      CatStep(chain, Max(a, lo), b, hi);
    }
  }

  lemma CatStep(chain: Chain, a: nat, b: nat, hi: nat)
    requires 0 < b
    ensures Cat(chain, a, Min(b - 1, hi)) + (if a <= b - 1 < hi then chain(b - 1) else []) == Cat(chain, a, Min(b, hi))
  {
  }

  lemma RangeClip(chain: Chain, a: nat, b: nat, f: Filter, lo: nat, hi: nat)
    requires WellFormed(chain)
    ensures Keep(Range(chain, a, b, f), InBlocks(lo, hi)) == Range(chain, Max(a, lo), Min(b, hi), f)
  {
    forall b: nat ensures KeepsWhole(Matching(chain, f), InBlocks(lo, hi), b, lo, hi) {
      BlockClip(chain, b, f, lo, hi);
    }
    CatClip(Matching(chain, f), InBlocks(lo, hi), a, b, lo, hi);
  }

  lemma ClippedSplit(chain: Chain, a: nat, m: nat, b: nat, f: Filter, lo: nat, hi: nat)
    requires a <= m <= b
    ensures Range(chain, Max(a, lo), Min(m, hi), f) + Range(chain, Max(m, lo), Min(b, hi), f)
      == Range(chain, Max(a, lo), Min(b, hi), f)
  {
    if lo < m < hi {
      CatSplit(Matching(chain, f), Max(a, lo), m, Min(b, hi));
    }
  }

  lemma AnswerBetween(chain: Chain, k: Backend, a: nat, b: nat, f: Filter, lo: nat, hi: nat)
    requires WellFormed(chain) && k.lo <= lo && hi <= k.hi + 1
    ensures Keep(Answer(chain, k, a, b, f), InBlocks(lo, hi)) == Range(chain, Max(a, lo), Min(b, hi), f)
  {
    RangeClip(chain, Max(a, k.lo), Min(b, k.hi + 1), f, lo, hi);
  }

  lemma TilesInit(acc: seq<Accepted>, from: nat, end: nat)
    requires Tiles(Spans(acc), from, end) && acc != []
    ensures var init, last := acc[..|acc| - 1], acc[|acc| - 1].span;
      Tiles(Spans(init), from, last.from) && from <= last.from <= last.to && last.to + 1 == end
  {
    assert Spans(acc)[..|Spans(acc)| - 1] == Spans(acc[..|acc| - 1]);
  }

  lemma BetweenStep(chain: Chain, logs: seq<ChainLog>, k: Backend, from: nat, mid: nat, end: nat, f: Filter, lo: nat,
                    hi: nat)
    requires WellFormed(chain) && from <= mid <= end && k.lo <= lo && hi <= k.hi + 1
    requires Keep(logs, InBlocks(lo, hi)) == Range(chain, Max(from, lo), Min(mid, hi), f)
    ensures Keep(logs + Answer(chain, k, mid, end, f), InBlocks(lo, hi)) == Range(chain, Max(from, lo), Min(end, hi), f)
  {
    AnswerBetween(chain, k, mid, end, f, lo, hi);
    KeepConcat(logs, Answer(chain, k, mid, end, f), InBlocks(lo, hi));
    ClippedSplit(chain, from, mid, end, f, lo, hi);
  }

  lemma LogsLast(chain: Chain, acc: seq<Accepted>, f: Filter)
    requires acc != []
    ensures var last := acc[|acc| - 1];
      Logs(chain, acc, f)
      == Logs(chain, acc[..|acc| - 1], f) + Answer(chain, last.k, last.span.from, last.span.to + 1, f)
  {
  }

  /** If every accepted response came from a backend that holds `[lo, hi)`, the
      logs that were ingested are, on those blocks, exactly the chain's. */
  lemma {:induction false} LogsBetween(chain: Chain, acc: seq<Accepted>, from: nat, end: nat, f: Filter, lo: nat,
                                       hi: nat)
    requires WellFormed(chain) && Tiles(Spans(acc), from, end) && from <= end
    requires forall a :: a in acc ==> a.k.lo <= lo && hi <= a.k.hi + 1
    ensures Keep(Logs(chain, acc, f), InBlocks(lo, hi)) == Range(chain, Max(from, lo), Min(end, hi), f)
  {
    if acc != [] {
      TilesInit(acc, from, end);
      var init, last := acc[..|acc| - 1], acc[|acc| - 1];
      LogsBetween(chain, init, from, last.span.from, f, lo, hi);
      LogsLast(chain, acc, f);
      BetweenStep(chain, Logs(chain, init, f), last.k, from, last.span.from, end, f, lo, hi);
    }
  }

  /** Whatever the backends hold, nothing is ingested that is not on the chain. */
  lemma {:induction false} LogsSound(chain: Chain, acc: seq<Accepted>, from: nat, end: nat, f: Filter, l: ChainLog)
    requires WellFormed(chain) && Tiles(Spans(acc), from, end) && from <= end && l in Logs(chain, acc, f)
    ensures l in Range(chain, from, end, f)
  {
    TilesInit(acc, from, end);
    var init, last := acc[..|acc| - 1], acc[|acc| - 1];
    if l in Logs(chain, init, f) {
      LogsSound(chain, init, from, last.span.from, f, l);
      RangeMember(chain, from, last.span.from, f, l);
    } else {
      RangeMember(chain, Max(last.span.from, last.k.lo), Min(end, last.k.hi + 1), f, l);
    }
    RangeMember(chain, from, end, f, l);
  }

  /** The backend that answered holds what it was asked for. */
  predicate HoldsSpan(a: Accepted) { a.k.lo <= a.span.from && a.span.to <= a.k.hi }

  lemma AnswerWhole(chain: Chain, k: Backend, a: nat, b: nat, f: Filter)
    requires k.lo <= a && b <= k.hi + 1
    ensures Answer(chain, k, a, b, f) == Range(chain, a, b, f)
  {
  }

  lemma CompleteStep(chain: Chain, logs: seq<ChainLog>, k: Backend, from: nat, mid: nat, end: nat, f: Filter)
    requires from <= mid <= end && k.lo <= mid && end <= k.hi + 1 && logs == Range(chain, from, mid, f)
    ensures logs + Answer(chain, k, mid, end, f) == Range(chain, from, end, f)
  {
    AnswerWhole(chain, k, mid, end, f);
    CatSplit(Matching(chain, f), from, mid, end);
  }

  /** If every backend holds what it was asked for, the logs ingested are the chain's. */
  lemma {:induction false} LogsComplete(chain: Chain, acc: seq<Accepted>, from: nat, end: nat, f: Filter)
    requires Tiles(Spans(acc), from, end) && from <= end && forall a :: a in acc ==> HoldsSpan(a)
    ensures Logs(chain, acc, f) == Range(chain, from, end, f)
  {
    if acc != [] {
      TilesInit(acc, from, end);
      var init, last := acc[..|acc| - 1], acc[|acc| - 1];
      LogsComplete(chain, init, from, last.span.from, f);
      LogsLast(chain, acc, f);
      assert HoldsSpan(last);
      CompleteStep(chain, Logs(chain, init, f), last.k, from, last.span.from, end, f);
    }
  }

  /** Two satisfied anchors pin the backend's interval around everything between them. */
  lemma AnchorsHold(chain: Chain, acc: seq<Accepted>, canaries: seq<Canary>, i: nat, j: nat)
    requires AllCorroborated(chain, acc, canaries) && i < |canaries| && j < |canaries|
    requires canaries[i].expected > 0 && canaries[j].expected > 0
    ensures forall a :: a in acc ==> a.k.lo <= canaries[i].block && canaries[j].block <= a.k.hi
  {
    forall a | a in acc ensures a.k.lo <= canaries[i].block && canaries[j].block <= a.k.hi {
      assert canaries[i] in canaries && canaries[j] in canaries;
      CanaryProvesBlock(chain, a.k, canaries[i]);
      CanaryProvesBlock(chain, a.k, canaries[j]);
    }
  }

  /** A successful corroborated scan has, between its two anchors, exactly the
      chain's logs, across every retry, halving and backoff. */
  lemma CorroboratedScanIsTrue(chain: Chain, acc: seq<Accepted>, from: nat, end: nat, canaries: seq<Canary>,
                               f: Filter, i: nat, j: nat)
    requires WellFormed(chain) && ReadUpTo(chain, acc, from, end, canaries)
    requires i < |canaries| && j < |canaries| && canaries[i].expected > 0 && canaries[j].expected > 0
    ensures var lo, hi := canaries[i].block, canaries[j].block + 1;
      Keep(Logs(chain, acc, f), InBlocks(lo, hi)) == Range(chain, Max(from, lo), Min(end, hi), f)
  {
    AnchorsHold(chain, acc, canaries, i, j);
    LogsBetween(chain, acc, from, end, f, canaries[i].block, canaries[j].block + 1);
  }

  // ----- probing for anchors -----

  datatype ProbeReply = ProbeFails(kind: RpcFailure) | ProbeServes(k: Backend)

  datatype ProbeMiss = ProbeMiss(emptyResponses: nat, rateLimited: nat, failedRequests: nat) {
    predicate AnsweredSuccessfully() { emptyResponses > 0 }
  }

  datatype ProbeOutcome = Found(c: Canary) | Missed(miss: ProbeMiss)

  function AnyLog(): Filter { (l: ChainLog) => true }

  function CountFor(logs: seq<ChainLog>, address: nat): nat { |Keep(logs, ByAddress(address))| }

  function Counter(logs: seq<ChainLog>): nat -> nat { (address: nat) => CountFor(logs, address) }

  /** The logging address with the smallest count; the smallest such address. */
  method LeastBy(logs: seq<ChainLog>, count: nat -> nat) returns (address: nat, n: nat)
    requires logs != []
    ensures n == count(address) && exists l :: l in logs && l.address == address
    ensures forall l :: l in logs ==> n < count(l.address) || (n == count(l.address) && address <= l.address)
  {
    address, n := logs[0].address, count(logs[0].address);
    ghost var seen := logs[0];
    var i := 1;
    while i < |logs|
      invariant 1 <= i <= |logs|
      invariant seen in logs && seen.address == address && n == count(address)
      invariant forall k :: 0 <= k < i ==>
        n < count(logs[k].address) || (n == count(logs[k].address) && address <= logs[k].address)
    {
      var c := count(logs[i].address);
      if c < n || (c == n && logs[i].address < address) {
        address, n, seen := logs[i].address, c, logs[i];
      }
      i := i + 1;
    }
  }

  /** The address that logged least. */
  method LeastLogger(logs: seq<ChainLog>) returns (address: nat, n: nat)
    requires logs != []
    ensures n == CountFor(logs, address) > 0
    ensures forall l :: l in logs ==>
      n < CountFor(logs, l.address) || (n == CountFor(logs, l.address) && address <= l.address)
  {
    address, n := LeastBy(logs, Counter(logs));
    ghost var seen :| seen in logs && seen.address == address;
    KeepMember(logs, ByAddress(address), seen);
    forall l | l in logs
      ensures n < CountFor(logs, l.address) || (n == CountFor(logs, l.address) && address <= l.address)
    {
      assert Counter(logs)(l.address) == CountFor(logs, l.address);
    }
  }

  /** An anchor worth having: a block of the chain, an address that logged in it,
      and the true number of its logs there. */
  ghost predicate TrueAnchor(chain: Chain, c: Canary) {
    c.expected > 0 && c.expected == CountFor(chain(c.block), c.address)
  }

  lemma {:induction false} KeepAll(s: seq<ChainLog>)
    ensures Keep(s, AnyLog()) == s
  {
    KeepSame(s, true, AnyLog());
  }

  lemma WholeBlock(chain: Chain, k: Backend, b: nat)
    ensures Answer(chain, k, b, b + 1, AnyLog()) == if k.Holds(b) then chain(b) else []
  {
    if k.Holds(b) {
      KeepAll(chain(b));
      assert Range(chain, b, b, AnyLog()) == [];
      assert Answer(chain, k, b, b + 1, AnyLog()) == [] + Keep(chain(b), AnyLog());
    }
  }

  ghost predicate Answered(probes: nat -> ProbeReply, from: nat, to: nat) {
    exists i :: from <= i < to && probes(i).ProbeServes?
  }

  /** The probe was answered with logs of the block. */
  predicate Useful(chain: Chain, p: ProbeReply, block: nat) { p.ProbeServes? && p.k.Holds(block) && chain(block) != [] }

  predicate NoneUseful(chain: Chain, probes: nat -> ProbeReply, block: nat, from: nat, to: nat) {
    forall i :: from <= i < to ==> !Useful(chain, probes(i), block)
  }

  /** No address logged less in the block. */
  predicate LogsLeast(chain: Chain, c: Canary) {
    forall l :: l in chain(c.block) ==> CountFor(chain(c.block), c.address) <= CountFor(chain(c.block), l.address)
  }

  /** The anchor that an answer to the probe of a block gives, if it has logs. */
  method AnchorOf(chain: Chain, k: Backend, block: nat) returns (c: Option<Canary>)
    ensures c.Some? <==> k.Holds(block) && chain(block) != []
    ensures c.Some? ==> c.value.block == block && TrueAnchor(chain, c.value) && LogsLeast(chain, c.value)
  {
    var logs := Answer(chain, k, block, block + 1, AnyLog());
    WholeBlock(chain, k, block);
    if logs == [] {
      return None;
    }
    var address, n := LeastLogger(logs);
    return Some(Canary(block, address, n));
  }

  /** One candidate block: up to five attempts, rate limits granted three more. */
  method ProbeBlock(chain: Chain, block: nat, miss0: ProbeMiss, probes: nat -> ProbeReply, next0: nat)
    returns (o: ProbeOutcome, next: nat)
    ensures next0 <= next <= next0 + CANARY_PROBE_ATTEMPTS + CANARY_RATE_LIMIT_RETRIES
    ensures o.Found? ==> o.c.block == block && TrueAnchor(chain, o.c) && LogsLeast(chain, o.c)
    ensures o.Found? ==>
      next0 < next && Useful(chain, probes(next - 1), block) && NoneUseful(chain, probes, block, next0, next - 1)
    ensures o.Missed? ==> next0 + CANARY_PROBE_ATTEMPTS <= next && NoneUseful(chain, probes, block, next0, next)
    ensures o.Missed? ==>
      (o.miss.AnsweredSuccessfully() <==> miss0.AnsweredSuccessfully() || Answered(probes, next0, next))
  {
    var miss := miss0;
    next := next0;
    var attempt, retries := 0, 0;
    while attempt < CANARY_PROBE_ATTEMPTS
      invariant 0 <= attempt <= CANARY_PROBE_ATTEMPTS && 0 <= retries <= CANARY_RATE_LIMIT_RETRIES
      invariant next == next0 + attempt + retries && NoneUseful(chain, probes, block, next0, next)
      invariant miss.AnsweredSuccessfully() <==> miss0.AnsweredSuccessfully() || Answered(probes, next0, next)
      decreases CANARY_PROBE_ATTEMPTS - attempt, CANARY_RATE_LIMIT_RETRIES - retries
    {
      var reply := probes(next);
      next := next + 1;
      if reply.ProbeFails? {
        if reply.kind == RateLimited {
          miss := miss.(rateLimited := miss.rateLimited + 1);
          if retries < CANARY_RATE_LIMIT_RETRIES {
            retries := retries + 1;
            continue;
          }
        } else {
          miss := miss.(failedRequests := miss.failedRequests + 1);
        }
        attempt := attempt + 1;
        continue;
      }
      attempt := attempt + 1;
      assert probes(next - 1).ProbeServes?;
      var c := AnchorOf(chain, reply.k, block);
      if c.Some? {
        return Found(c.value), next;
      }
      miss := miss.(emptyResponses := miss.emptyResponses + 1);
    }
    return Missed(miss), next;
  }

  /** The candidates before number `i` took five to eight probes each, and it took one
      to eight. */
  predicate ProbedUpTo(i: nat, from: nat, next: nat) { from + 5 * i < next <= from + 8 * (i + 1) }

  /** `anchor_in`: the first candidate block with logs. A miss knows whether the
      endpoint ever answered. */
  method AnchorIn(chain: Chain, candidates: seq<nat>, probes: nat -> ProbeReply, next0: nat)
    returns (o: ProbeOutcome, next: nat)
    ensures next0 <= next
    ensures o.Found? ==> TrueAnchor(chain, o.c) && LogsLeast(chain, o.c)
    ensures o.Found? ==> exists i :: 0 <= i < |candidates| && candidates[i] == o.c.block && ProbedUpTo(i, next0, next)
    ensures o.Missed? ==> next0 + CANARY_PROBE_ATTEMPTS * |candidates| <= next
    ensures o.Missed? ==> (o.miss.AnsweredSuccessfully() <==> Answered(probes, next0, next))
  {
    var miss := ProbeMiss(0, 0, 0);
    next := next0;
    var i := 0;
    while i < |candidates|
      invariant 0 <= i <= |candidates|
      invariant next0 + CANARY_PROBE_ATTEMPTS * i <= next <= next0 + 8 * i
      invariant miss.AnsweredSuccessfully() <==> Answered(probes, next0, next)
    {
      o, next := ProbeBlock(chain, candidates[i], miss, probes, next);
      if o.Found? {
        return;
      }
      miss := o.miss;
      i := i + 1;
    }
    return Missed(miss), next;
  }

  datatype ScanEnd = Oldest | Newest

  datatype Anchoring =
    | BothAnchored(canaries: seq<Canary>)
    | PartiallyAnchored(c: Canary, missing: ScanEnd, miss: ProbeMiss)
    | Unanchored(oldest: ProbeMiss, newest: ProbeMiss)
  {
    function Canaries(): seq<Canary> {
      match this
      case BothAnchored(cs) => cs
      case PartiallyAnchored(c, _, _) => [c]
      case Unanchored(_, _) => []
    }

    predicate EveryMissAnswered() {
      match this
      case BothAnchored(_) => true
      case PartiallyAnchored(_, _, miss) => miss.AnsweredSuccessfully()
      case Unanchored(o, n) => o.AnsweredSuccessfully() && n.AnsweredSuccessfully()
    }
  }

  datatype ScanDecision = Corroborated | ProceedUnproven | Refuse

  function Decide(a: Anchoring, allowUncorroborated: bool): ScanDecision {
    if a.BothAnchored? then Corroborated
    else if !a.EveryMissAnswered() then Refuse
    else if allowUncorroborated then ProceedUnproven
    else Refuse
  }

  function Ascending(from: nat, to: nat): seq<nat>
    requires from <= to
  {
    seq(Min(to - from + 1, CANARY_PROBE_BLOCKS), i => from + i)
  }

  function Descending(from: nat, to: nat): seq<nat>
    requires from <= to
  {
    seq(Min(to - from + 1, CANARY_PROBE_BLOCKS), i requires 0 <= i < Min(to - from + 1, CANARY_PROBE_BLOCKS) => to - i)
  }

  /** The candidates are the first and the last sixteen blocks, nearest the end first. */
  lemma CandidatesAre(from: nat, to: nat, i: nat)
    requires from <= to
    ensures |Ascending(from, to)| == |Descending(from, to)| == if to - from < 16 then to - from + 1 else 16
    ensures i < |Ascending(from, to)| ==> Ascending(from, to)[i] == from + i && Descending(from, to)[i] == to - i
  {
  }

  /** Two true anchors, one among the first and one among the last probed blocks
      (they may be the same one on a short range). */
  ghost predicate AnchoredAtBothEnds(chain: Chain, cs: seq<Canary>, from: nat, to: nat) {
    && |cs| > 0
    && (forall c :: c in cs ==> TrueAnchor(chain, c))
    && from <= cs[0].block <= Min(to, from + CANARY_PROBE_BLOCKS - 1)
    && Max(from, to - CANARY_PROBE_BLOCKS + 1) <= cs[|cs| - 1].block <= to
  }

  /** One true anchor, among the probed blocks of the end that is not missing. */
  ghost predicate AnchoredAtOneEnd(chain: Chain, a: Anchoring, from: nat, to: nat)
    requires a.PartiallyAnchored?
  {
    && TrueAnchor(chain, a.c) && from <= a.c.block <= to
    && if a.missing.Newest? then a.c.block < from + 16 else to < a.c.block + 16
  }

  ghost predicate UnanchoredEndsAnswered(a: Anchoring, probes: nat -> ProbeReply, mid: nat, end: nat)
    requires !a.BothAnchored?
  {
    && (a.Unanchored? || a.missing == Oldest ==> Answered(probes, 0, mid))
    && (a.Unanchored? || a.missing == Newest ==> Answered(probes, mid, end))
  }

  /** `probe_canaries`: both ends are always probed. */
  method ProbeCanaries(chain: Chain, from: nat, to: nat, probes: nat -> ProbeReply)
    returns (a: Anchoring, mid: nat, end: nat)
    requires from <= to
    ensures mid <= end
    ensures a.BothAnchored? ==> AnchoredAtBothEnds(chain, a.canaries, from, to)
    ensures a.PartiallyAnchored? ==> AnchoredAtOneEnd(chain, a, from, to)
    ensures !a.BothAnchored? ==> (a.EveryMissAnswered() <==> UnanchoredEndsAnswered(a, probes, mid, end))
  {
    var oldest, newest;
    oldest, mid := AnchorIn(chain, Ascending(from, to), probes, 0);
    newest, end := AnchorIn(chain, Descending(from, to), probes, mid);
    if oldest.Found? && newest.Found? {
      var cs := [oldest.c];
      if !(oldest.c.block == newest.c.block && oldest.c.address == newest.c.address) {
        cs := cs + [newest.c];
      }
      a := BothAnchored(cs);
    } else if oldest.Found? {
      a := PartiallyAnchored(oldest.c, Newest, newest.miss);
    } else if newest.Found? {
      a := PartiallyAnchored(newest.c, Oldest, oldest.miss);
    } else {
      a := Unanchored(oldest.miss, newest.miss);
    }
  }

  // ----- collect_tally -----

  datatype ReportWindow = ReportWindow(locksFrom: nat, locksTo: nat, outcomesTo: nat)

  datatype Scan = Scan(tally: T.Tally, corroborated: bool)

  function AllEvents(venue: nat): Filter { (l: ChainLog) => l.address == venue && !l.event.UnknownEvent? }

  function OutcomeEvents(venue: nat): Filter {
    (l: ChainLog) => l.address == venue && (l.event.ClaimEvent? || l.event.RefundEvent?)
  }

  /** The logs a perfect endpoint would have returned for the window. */
  function WindowLogs(chain: Chain, venue: nat, w: ReportWindow): seq<ChainLog> {
    Range(chain, w.locksFrom, w.locksTo + 1, AllEvents(venue))
      + Range(chain, w.locksTo + 1, w.outcomesTo + 1, OutcomeEvents(venue))
  }

  /** Those are the venue's lock, claim and refund logs of the lock window, and its
      claims and refunds after it. */
  lemma WindowLogsAre(chain: Chain, venue: nat, w: ReportWindow, l: ChainLog)
    requires WellFormed(chain)
    ensures l in WindowLogs(chain, venue, w) <==>
      && l in chain(l.block) && l.address == venue
      && (if w.locksFrom <= l.block <= w.locksTo then l.event.LockEvent? || l.event.ClaimEvent? || l.event.RefundEvent?
          else w.locksTo < l.block <= w.outcomesTo && (l.event.ClaimEvent? || l.event.RefundEvent?))
  {
    RangeMember(chain, w.locksFrom, w.locksTo + 1, AllEvents(venue), l);
    RangeMember(chain, w.locksTo + 1, w.outcomesTo + 1, OutcomeEvents(venue), l);
  }

  /** The ingested logs `got` are the window's logs on `[lo, hi)`, and nothing that
      is not a log of the window. */
  ghost predicate Faithful(chain: Chain, venue: nat, w: ReportWindow, got: seq<ChainLog>, lo: nat, hi: nat) {
    && Keep(got, InBlocks(lo, hi)) == Keep(WindowLogs(chain, venue, w), InBlocks(lo, hi))
    && forall l :: l in got ==> l in WindowLogs(chain, venue, w)
  }

  function Spread(w: ReportWindow): nat { Max(w.locksTo, w.outcomesTo) }

  lemma WindowClip(chain: Chain, venue: nat, w: ReportWindow, lo: nat, hi: nat)
    requires WellFormed(chain)
    ensures Keep(WindowLogs(chain, venue, w), InBlocks(lo, hi))
      == Range(chain, Max(w.locksFrom, lo), Min(w.locksTo + 1, hi), AllEvents(venue))
         + Range(chain, Max(w.locksTo + 1, lo), Min(w.outcomesTo + 1, hi), OutcomeEvents(venue))
  {
    var f1, f2 := AllEvents(venue), OutcomeEvents(venue);
    KeepConcat(Range(chain, w.locksFrom, w.locksTo + 1, f1), Range(chain, w.locksTo + 1, w.outcomesTo + 1, f2),
               InBlocks(lo, hi));
    RangeClip(chain, w.locksFrom, w.locksTo + 1, f1, lo, hi);
    RangeClip(chain, w.locksTo + 1, w.outcomesTo + 1, f2, lo, hi);
  }

  /** The two scans of a report read the window: locks first, then the outcomes
      that came later. */
  ghost predicate WindowRead(chain: Chain, w: ReportWindow, a1: seq<Accepted>, a2: seq<Accepted>,
                             canaries: seq<Canary>) {
    && ReadUpTo(chain, a1, w.locksFrom, Max(w.locksFrom, w.locksTo + 1), canaries)
    && ReadUpTo(chain, a2, w.locksTo + 1, Max(w.locksTo + 1, w.outcomesTo + 1), canaries)
  }

  function Got(chain: Chain, venue: nat, a1: seq<Accepted>, a2: seq<Accepted>): seq<ChainLog> {
    Logs(chain, a1, AllEvents(venue)) + Logs(chain, a2, OutcomeEvents(venue))
  }

  lemma SoundFrom(chain: Chain, acc: seq<Accepted>, from: nat, m: nat, f: Filter, l: ChainLog)
    requires WellFormed(chain) && Tiles(Spans(acc), from, Max(from, m)) && l in Logs(chain, acc, f)
    ensures l in Range(chain, from, m, f)
  {
    LogsSound(chain, acc, from, Max(from, m), f, l);
    RangeMember(chain, from, Max(from, m), f, l);
    RangeMember(chain, from, m, f, l);
  }

  /** `got` is what two scans delivered, `all` what a perfect endpoint would have. */
  lemma BothSound(chain: Chain, a1: seq<Accepted>, a2: seq<Accepted>, x: nat, y: nat, z: nat, f1: Filter, f2: Filter,
                  got: seq<ChainLog>, all: seq<ChainLog>)
    requires WellFormed(chain) && Tiles(Spans(a1), x, Max(x, y)) && Tiles(Spans(a2), y, Max(y, z))
    requires got == Logs(chain, a1, f1) + Logs(chain, a2, f2) && all == Range(chain, x, y, f1) + Range(chain, y, z, f2)
    ensures forall l :: l in got ==> l in all
  {
    forall l | l in got ensures l in all {
      if l in Logs(chain, a1, f1) {
        SoundFrom(chain, a1, x, y, f1, l);
      } else {
        SoundFrom(chain, a2, y, z, f2, l);
      }
    }
  }

  lemma WindowSound(chain: Chain, w: ReportWindow, a1: seq<Accepted>, a2: seq<Accepted>, canaries: seq<Canary>,
                    f1: Filter, f2: Filter, got: seq<ChainLog>, all: seq<ChainLog>)
    requires WellFormed(chain) && WindowRead(chain, w, a1, a2, canaries)
    requires got == Logs(chain, a1, f1) + Logs(chain, a2, f2)
    requires all == Range(chain, w.locksFrom, w.locksTo + 1, f1) + Range(chain, w.locksTo + 1, w.outcomesTo + 1, f2)
    ensures forall l :: l in got ==> l in all
  {
    BothSound(chain, a1, a2, w.locksFrom, w.locksTo + 1, w.outcomesTo + 1, f1, f2, got, all);
  }

  lemma RangeNoEarlier(chain: Chain, from: nat, end: nat, f: Filter, lo: nat, hi: nat)
    ensures Range(chain, Max(from, lo), Min(Max(from, end), hi), f) == Range(chain, Max(from, lo), Min(end, hi), f)
  {
  }

  lemma ScanTrueUpTo(chain: Chain, acc: seq<Accepted>, from: nat, end: nat, f: Filter, cs: seq<Canary>, i: nat, j: nat)
    requires WellFormed(chain) && ReadUpTo(chain, acc, from, Max(from, end), cs)
    requires i < |cs| && j < |cs| && cs[i].expected > 0 && cs[j].expected > 0
    ensures Keep(Logs(chain, acc, f), InBlocks(cs[i].block, cs[j].block + 1))
      == Range(chain, Max(from, cs[i].block), Min(end, cs[j].block + 1), f)
  {
    CorroboratedScanIsTrue(chain, acc, from, Max(from, end), cs, f, i, j);
    RangeNoEarlier(chain, from, end, f, cs[i].block, cs[j].block + 1);
  }

  lemma WindowBetween(chain: Chain, venue: nat, w: ReportWindow, a1: seq<Accepted>, a2: seq<Accepted>,
                      cs: seq<Canary>, i: nat, j: nat)
    requires WellFormed(chain) && WindowRead(chain, w, a1, a2, cs)
    requires i < |cs| && j < |cs| && cs[i].expected > 0 && cs[j].expected > 0
    ensures var between := InBlocks(cs[i].block, cs[j].block + 1);
      Keep(Got(chain, venue, a1, a2), between) == Keep(WindowLogs(chain, venue, w), between)
  {
    var lo, hi := cs[i].block, cs[j].block + 1;
    ScanTrueUpTo(chain, a1, w.locksFrom, w.locksTo + 1, AllEvents(venue), cs, i, j);
    ScanTrueUpTo(chain, a2, w.locksTo + 1, w.outcomesTo + 1, OutcomeEvents(venue), cs, i, j);
    KeepConcat(Logs(chain, a1, AllEvents(venue)), Logs(chain, a2, OutcomeEvents(venue)), InBlocks(lo, hi));
    WindowClip(chain, venue, w, lo, hi);
  }

  lemma FaithfulScan(chain: Chain, venue: nat, w: ReportWindow, a1: seq<Accepted>, a2: seq<Accepted>, cs: seq<Canary>,
                     i: nat, j: nat)
    requires WellFormed(chain) && WindowRead(chain, w, a1, a2, cs)
    requires i < |cs| && j < |cs| && cs[i].expected > 0 && cs[j].expected > 0
    ensures Faithful(chain, venue, w, Got(chain, venue, a1, a2), cs[i].block, cs[j].block + 1)
  {
    WindowBetween(chain, venue, w, a1, a2, cs, i, j);
    WindowSound(chain, w, a1, a2, cs, AllEvents(venue), OutcomeEvents(venue),
                Got(chain, venue, a1, a2), WindowLogs(chain, venue, w));
  }

  /** A window log outside the anchored stretch: the only kind a corroborated report can miss. */
  ghost predicate Edge(l: ChainLog, lo: nat, hi: nat) { !(lo <= l.block < hi) }

  /** When no log of the venue sits outside the anchored stretch, the tally is the
      one a full read of the chain gives. */
  lemma AnchoredTallyIsTrue(chain: Chain, venue: nat, w: ReportWindow, got: seq<ChainLog>, lo: nat, hi: nat)
    requires WellFormed(chain) && Faithful(chain, venue, w, got, lo, hi)
    requires forall l :: l in WindowLogs(chain, venue, w) ==> !Edge(l, lo, hi)
    ensures got == WindowLogs(chain, venue, w)
    ensures T.IngestAll(T.EMPTY, Events(got)) == T.IngestAll(T.EMPTY, Events(WindowLogs(chain, venue, w)))
  {
    KeepSame(WindowLogs(chain, venue, w), true, InBlocks(lo, hi));
    KeepSame(got, true, InBlocks(lo, hi));
  }

  /** What `collect_tally` promises of a scan it returns. */
  ghost predicate Proven(chain: Chain, venue: nat, w: ReportWindow, got: seq<ChainLog>, cs: seq<Canary>) {
    && AnchoredAtBothEnds(chain, cs, w.locksFrom, Spread(w))
    && Faithful(chain, venue, w, got, cs[0].block, cs[|cs| - 1].block + 1)
  }

  lemma NothingToRead(chain: Chain, from: nat, end: nat, cs: seq<Canary>)
    requires end <= from
    ensures ReadUpTo(chain, [], from, Max(from, end), cs)
  {
  }

  /** Nothing goes wrong: every batch is served with its canaries. */
  ghost predicate AllServed(chain: Chain, replies: nat -> Reply, canaries: seq<Canary>) {
    forall i :: replies(i).Serves? && Corroborates(chain, replies(i), canaries)
  }

  lemma ErrorNotServed(chain: Chain, replies: nat -> Reply, cs: seq<Canary>, e: ScanError, a: nat, next: nat,
                       chunk: nat)
    requires e == Uncorroborated ==> LeftUnproven(chain, replies, next, cs)
    requires e == EthRpc ==> GivenUp(replies, a, next, chunk)
    ensures !AllServed(chain, replies, cs)
  {
    assert next > 0 && !(replies(next - 1).Serves? && Corroborates(chain, replies(next - 1), cs));
  }

  /** The two scans of one report, into a new tally. */
  method ScanWindow(chain: Chain, w: ReportWindow, all: Accepted -> seq<T.Event>, outcomes: Accepted -> seq<T.Event>,
                    chunk: nat, cs: seq<Canary>, replies: nat -> Reply)
    returns (r: Result<T.Tally, ScanError>, a1: seq<Accepted>, a2: seq<Accepted>)
    requires w.locksTo <= U64_MAX && w.outcomesTo <= U64_MAX
    ensures r.Ok? ==> WindowRead(chain, w, a1, a2, cs)
    ensures r.Ok? ==> r.value == T.IngestAll(T.IngestAll(T.EMPTY, Fed(all, a1)), Fed(outcomes, a2))
    ensures AllServed(chain, replies, cs) ==> r.Ok?
  {
    var tally := new T.SwapTally();
    var ok, next;
    a2 := [];
    ok, a1, next := ScanRange(tally, chain, w.locksFrom, w.locksTo, all, chunk, cs, replies, 0);
    if ok.Err? {
      ErrorNotServed(chain, replies, cs, ok.error, 0, next, chunk);
      return Err(ok.error), a1, a2;
    }
    ghost var asked := next;
    if w.outcomesTo > w.locksTo {
      ok, a2, next := ScanRange(tally, chain, w.locksTo + 1, w.outcomesTo, outcomes, chunk, cs, replies, next);
      if ok.Err? {
        ErrorNotServed(chain, replies, cs, ok.error, asked, next, chunk);
        return Err(ok.error), a1, a2;
      }
    } else {
      NothingToRead(chain, w.locksTo + 1, w.outcomesTo + 1, cs);
    }
    return Ok(tally.View()), a1, a2;
  }

  /** What was read of the window: the accepted responses tile both spans and their
      logs are `got`, none of them off the chain, and all of it if every backend held
      what it was asked for. */
  ghost predicate ReadsWindow(chain: Chain, venue: nat, w: ReportWindow, a1: seq<Accepted>, a2: seq<Accepted>,
                              cs: seq<Canary>, got: seq<ChainLog>) {
    && WindowRead(chain, w, a1, a2, cs) && got == Got(chain, venue, a1, a2)
    && (WellFormed(chain) ==> forall l :: l in got ==> l in WindowLogs(chain, venue, w))
    && ((forall a :: a in a1 || a in a2 ==> HoldsSpan(a)) ==> got == WindowLogs(chain, venue, w))
  }

  lemma WindowComplete(chain: Chain, w: ReportWindow, a1: seq<Accepted>, a2: seq<Accepted>, cs: seq<Canary>,
                       f1: Filter, f2: Filter)
    requires WindowRead(chain, w, a1, a2, cs) && forall a :: a in a1 || a in a2 ==> HoldsSpan(a)
    ensures Logs(chain, a1, f1) == Range(chain, w.locksFrom, w.locksTo + 1, f1)
    ensures Logs(chain, a2, f2) == Range(chain, w.locksTo + 1, w.outcomesTo + 1, f2)
  {
    LogsComplete(chain, a1, w.locksFrom, Max(w.locksFrom, w.locksTo + 1), f1);
    LogsComplete(chain, a2, w.locksTo + 1, Max(w.locksTo + 1, w.outcomesTo + 1), f2);
  }

  lemma WindowIsRead(chain: Chain, venue: nat, w: ReportWindow, a1: seq<Accepted>, a2: seq<Accepted>, cs: seq<Canary>)
    requires WindowRead(chain, w, a1, a2, cs)
    ensures ReadsWindow(chain, venue, w, a1, a2, cs, Got(chain, venue, a1, a2))
  {
    var f1, f2 := AllEvents(venue), OutcomeEvents(venue);
    if WellFormed(chain) {
      WindowSound(chain, w, a1, a2, cs, f1, f2, Got(chain, venue, a1, a2), WindowLogs(chain, venue, w));
    }
    if forall a :: a in a1 || a in a2 ==> HoldsSpan(a) { WindowComplete(chain, w, a1, a2, cs, f1, f2); }
  }

  /** What anchors at both ends, if there are any, prove of what was read. */
  lemma WindowIsProven(chain: Chain, venue: nat, w: ReportWindow, a1: seq<Accepted>, a2: seq<Accepted>, cs: seq<Canary>)
    requires WindowRead(chain, w, a1, a2, cs) && AnchoredAtBothEnds(chain, cs, w.locksFrom, Spread(w))
    ensures WellFormed(chain) ==> Proven(chain, venue, w, Got(chain, venue, a1, a2), cs)
  {
    EndsExpectLogs(chain, cs, w.locksFrom, Spread(w));
    FaithfulWhenAnchored(chain, venue, w, a1, a2, cs);
  }

  /** A single anchor is batched all the same: whoever served held its block. */
  ghost predicate AnchorHeld(a: Anchoring, a1: seq<Accepted>, a2: seq<Accepted>) {
    a.PartiallyAnchored? ==> forall r :: r in a1 || r in a2 ==> r.k.Holds(a.c.block)
  }

  lemma OneAnchorIsHeld(chain: Chain, w: ReportWindow, a1: seq<Accepted>, a2: seq<Accepted>, a: Anchoring)
    requires WindowRead(chain, w, a1, a2, a.Canaries()) && (a.PartiallyAnchored? ==> TrueAnchor(chain, a.c))
    ensures AnchorHeld(a, a1, a2)
  {
    if a.PartiallyAnchored? {
      assert a.c in a.Canaries();
      forall r | r in a1 || r in a2 ensures r.k.Holds(a.c.block) { CanaryProvesBlock(chain, r.k, a.c); }
    }
  }

  /** The scan itself, with the canaries that were found. */
  method ScanAnchored(chain: Chain, venue: nat, w: ReportWindow, chunk: nat, a: Anchoring, replies: nat -> Reply)
    returns (r: Result<T.Tally, ScanError>, a1: seq<Accepted>, a2: seq<Accepted>, got: seq<ChainLog>)
    requires w.locksTo <= U64_MAX && w.outcomesTo <= U64_MAX
    requires a.BothAnchored? ==> AnchoredAtBothEnds(chain, a.canaries, w.locksFrom, Spread(w))
    requires a.PartiallyAnchored? ==> TrueAnchor(chain, a.c)
    ensures r.Ok? ==> AnchorHeld(a, a1, a2)
    ensures r.Ok? ==> r.value == T.IngestAll(T.EMPTY, Events(got))
    ensures r.Ok? ==> ReadsWindow(chain, venue, w, a1, a2, a.Canaries(), got)
    ensures r.Ok? && a.BothAnchored? && WellFormed(chain) ==> Proven(chain, venue, w, got, a.canaries)
    ensures AllServed(chain, replies, a.Canaries()) ==> r.Ok?
  {
    var all, outcomes := Answers(chain, AllEvents(venue)), Answers(chain, OutcomeEvents(venue));
    r, a1, a2 := ScanWindow(chain, w, all, outcomes, chunk, a.Canaries(), replies);
    got := Got(chain, venue, a1, a2);
    GotEvents(chain, venue, a1, a2);
    if r.Ok? {
      WindowIsRead(chain, venue, w, a1, a2, a.Canaries());
      OneAnchorIsHeld(chain, w, a1, a2, a);
      if a.BothAnchored? {
        WindowIsProven(chain, venue, w, a1, a2, a.canaries);
      }
    }
  }

  /** `collect_tally`. Corroborated or not, the tally of a scan that succeeds holds
      exactly the logs `got` of the responses `a1` and `a2` that read the window. */
  method CollectTally(chain: Chain, venue: nat, w: ReportWindow, chunk: nat, allow: bool,
                      probes: nat -> ProbeReply, replies: nat -> Reply)
    returns (r: Result<Scan, ScanError>, a: Anchoring, a1: seq<Accepted>, a2: seq<Accepted>, got: seq<ChainLog>,
             mid: nat, end: nat)
    requires w.locksTo <= U64_MAX && w.outcomesTo <= U64_MAX
    ensures r.Ok? ==> r.value.tally == T.IngestAll(T.EMPTY, Events(got))
    ensures Spread(w) < w.locksFrom ==> r == Ok(Scan(T.EMPTY, true))
    ensures w.locksFrom <= Spread(w) && r.Ok? ==> ReadsWindow(chain, venue, w, a1, a2, a.Canaries(), got)
    ensures w.locksFrom <= Spread(w) && r.Ok? ==> (r.value.corroborated <==> a.BothAnchored?) && AnchorHeld(a, a1, a2)
    ensures a.PartiallyAnchored? ==> AnchoredAtOneEnd(chain, a, w.locksFrom, Spread(w))
    ensures w.locksFrom <= Spread(w) && r.Ok? && r.value.corroborated && WellFormed(chain) ==>
      Proven(chain, venue, w, got, a.canaries)
    ensures w.locksFrom <= Spread(w) && r.Ok? && !r.value.corroborated ==>
      allow && UnanchoredEndsAnswered(a, probes, mid, end)
    ensures w.locksFrom <= Spread(w) && !a.BothAnchored? && (!allow || !UnanchoredEndsAnswered(a, probes, mid, end)) ==>
      r == Err(Uncorroborated)
    ensures AllServed(chain, replies, a.Canaries()) ==>
      (a.BothAnchored? || (allow && UnanchoredEndsAnswered(a, probes, mid, end)) ==> r.Ok?)
  {
    a, a1, a2, got, mid, end := BothAnchored([]), [], [], [], 0, 0;
    if Spread(w) < w.locksFrom {
      return Ok(Scan(T.EMPTY, true)), a, a1, a2, got, mid, end;
    }
    a, mid, end := ProbeCanaries(chain, w.locksFrom, Spread(w), probes);
    var decision := Decide(a, allow);
    if decision == Refuse {
      return Err(Uncorroborated), a, a1, a2, got, mid, end;
    }
    var ok;
    ok, a1, a2, got := ScanAnchored(chain, venue, w, chunk, a, replies);
    if ok.Err? {
      return Err(ok.error), a, a1, a2, got, mid, end;
    }
    return Ok(Scan(ok.value, decision == Corroborated)), a, a1, a2, got, mid, end;
  }

  lemma TallyConcat(s: seq<ChainLog>, t: seq<ChainLog>)
    ensures T.IngestAll(T.IngestAll(T.EMPTY, Events(s)), Events(t)) == T.IngestAll(T.EMPTY, Events(s + t))
  {
    T.IngestConcat(T.EMPTY, Events(s), Events(t));
    EventsConcat(s, t);
  }

  lemma GotEvents(chain: Chain, venue: nat, a1: seq<Accepted>, a2: seq<Accepted>)
    ensures T.IngestAll(T.IngestAll(T.EMPTY, Fed(Answers(chain, AllEvents(venue)), a1)),
                        Fed(Answers(chain, OutcomeEvents(venue)), a2))
      == T.IngestAll(T.EMPTY, Events(Got(chain, venue, a1, a2)))
  {
    FedAreLogs(chain, AllEvents(venue), a1);
    FedAreLogs(chain, OutcomeEvents(venue), a2);
    TallyConcat(Logs(chain, a1, AllEvents(venue)), Logs(chain, a2, OutcomeEvents(venue)));
  }

  lemma FaithfulWhenAnchored(chain: Chain, venue: nat, w: ReportWindow, a1: seq<Accepted>, a2: seq<Accepted>,
                             cs: seq<Canary>)
    requires WindowRead(chain, w, a1, a2, cs)
    ensures WellFormed(chain) && |cs| > 0 && cs[0].expected > 0 && cs[|cs| - 1].expected > 0 ==>
      Faithful(chain, venue, w, Got(chain, venue, a1, a2), cs[0].block, cs[|cs| - 1].block + 1)
  {
    if WellFormed(chain) && |cs| > 0 && cs[0].expected > 0 && cs[|cs| - 1].expected > 0 {
      FaithfulScan(chain, venue, w, a1, a2, cs, 0, |cs| - 1);
    }
  }

  lemma EndsExpectLogs(chain: Chain, cs: seq<Canary>, from: nat, to: nat)
    requires AnchoredAtBothEnds(chain, cs, from, to)
    ensures cs[0].expected > 0 && cs[|cs| - 1].expected > 0
  {
    assert cs[0] in cs && cs[|cs| - 1] in cs;
  }
}
