/** Counting swaps from decoded logs (`SwapTally`, src/eth/report.rs). */
module Tally {
  import opened Common

  type Id = nat
  type Address = nat

  datatype LockedRow = LockedRow(swapId: Id, sender: Address, recipient: Address)

  /** A log as the decoder sees it; anything but the three known events is skipped. */
  datatype Event = LockEvent(row: LockedRow) | ClaimEvent(id: Id) | RefundEvent(id: Id) | UnknownEvent

  datatype Tally = Tally(locks: map<Id, LockedRow>, claimed: set<Id>, refunded: set<Id>)

  const EMPTY: Tally := Tally(map[], {}, {})

  function Ingest(t: Tally, e: Event): Tally {
    match e
    case LockEvent(row) => if row.swapId in t.locks then t else t.(locks := t.locks[row.swapId := row])
    case ClaimEvent(id) => t.(claimed := t.claimed + {id})
    case RefundEvent(id) => t.(refunded := t.refunded + {id})
    case UnknownEvent => t
  }

  function IngestAll(t: Tally, es: seq<Event>): Tally {
    if es == [] then t else Ingest(IngestAll(t, es[..|es| - 1]), es[|es| - 1])
  }

  lemma {:induction false} IngestConcat(t: Tally, a: seq<Event>, b: seq<Event>)
    ensures IngestAll(IngestAll(t, a), b) == IngestAll(t, a + b)
  {
    if b == [] {
      assert a + b == a;
    } else {
      assert (a + b)[..|a + b| - 1] == a + b[..|b| - 1];
      IngestConcat(t, a, b[..|b| - 1]);
    }
  }

  // ----- order and duplication do not matter -----

  /** No two lock rows share a swap id: the contract derives the id from the row. */
  predicate OneRowPerId(es: seq<Event>) {
    forall x, y :: x in es && y in es && x.LockEvent? && y.LockEvent? && x.row.swapId == y.row.swapId ==> x == y
  }

  /** What a tally of `es` holds, said without mentioning order. */
  ghost predicate TallyOf(t: Tally, es: seq<Event>) {
    && (forall id :: id in t.claimed <==> ClaimEvent(id) in es)
    && (forall id :: id in t.refunded <==> RefundEvent(id) in es)
    && (forall id :: id in t.locks ==> LockEvent(t.locks[id]) in es && t.locks[id].swapId == id)
    && (forall e :: e in es && e.LockEvent? ==> e.row.swapId in t.locks)
  }

  lemma {:induction false} IngestIsTallyOf(es: seq<Event>)
    ensures TallyOf(IngestAll(EMPTY, es), es)
  {
    if es != [] {
      var init, last := es[..|es| - 1], es[|es| - 1];
      IngestIsTallyOf(init);
      IngestOne(IngestAll(EMPTY, init), init, last);
      assert es == init + [last];
    }
  }

  lemma IngestOne(t: Tally, es: seq<Event>, e: Event)
    requires TallyOf(t, es)
    ensures TallyOf(Ingest(t, e), es + [e])
  {
    var es' := es + [e];
    assert forall x :: x in es' <==> x in es || x == e;
  }

  predicate LocksAt(es: seq<Event>, i: nat, id: Id) { i < |es| && es[i].LockEvent? && es[i].row.swapId == id }

  /** The first lock row of a swap is the one that counts. */
  lemma {:induction false} FirstRowWins(es: seq<Event>, i: nat, id: Id)
    requires LocksAt(es, i, id) && forall k: nat :: k < i ==> !LocksAt(es, k, id)
    ensures var t := IngestAll(EMPTY, es); id in t.locks && t.locks[id] == es[i].row
  {
    var init := es[..|es| - 1];
    if i < |init| {
      assert init[i] == es[i] && forall k: nat :: k < i ==> (LocksAt(init, k, id) <==> LocksAt(es, k, id));
      FirstRowWins(init, i, id);
    } else {
      IngestIsTallyOf(init);
      if id in IngestAll(EMPTY, init).locks {
        var k :| 0 <= k < |init| && init[k] == LockEvent(IngestAll(EMPTY, init).locks[id]);
        assert LocksAt(es, k, id);
      }
    }
  }

  /** The tally of a set of logs with one row per id is determined: any order and
      any number of deliveries of the same logs give the same tally. */
  lemma TallyDetermined(t: Tally, u: Tally, a: seq<Event>, b: seq<Event>)
    requires TallyOf(t, a) && TallyOf(u, b) && OneRowPerId(a) && forall e :: e in a <==> e in b
    ensures t == u
  {
    assert t.locks.Keys == u.locks.Keys by {
      forall id | id in t.locks ensures id in u.locks { assert LockEvent(t.locks[id]) in b; }
      forall id | id in u.locks ensures id in t.locks { assert LockEvent(u.locks[id]) in a; }
    }
    forall id | id in t.locks ensures t.locks[id] == u.locks[id] {
      assert LockEvent(t.locks[id]) in a && LockEvent(u.locks[id]) in a;
    }
  }

  lemma OrderAndDuplicatesIrrelevant(a: seq<Event>, b: seq<Event>)
    requires OneRowPerId(a) && forall e :: e in a <==> e in b
    ensures IngestAll(EMPTY, a) == IngestAll(EMPTY, b)
  {
    IngestIsTallyOf(a);
    IngestIsTallyOf(b);
    TallyDetermined(IngestAll(EMPTY, a), IngestAll(EMPTY, b), a, b);
  }

  // ----- the counts -----

  datatype MakerCounts = MakerCounts(attempted: nat, completed: nat, refunded: nat, stillOpen: nat)

  datatype SwapCounts = SwapCounts(attempted: nat, completed: nat, refunded: nat, stillOpen: nat,
                                   distinctTakers: nat, byMaker: map<Address, MakerCounts>)

  datatype Outcome = Done | Back | Pending

  /** Claimed wins over refunded, so the three outcomes partition the locks. */
  function OutcomeOf(t: Tally, id: Id): Outcome {
    if id in t.claimed then Done else if id in t.refunded then Back else Pending
  }

  /** The swaps of `ids` with outcome `k`, and those locked for maker `m`. */
  function Bucket(t: Tally, ids: set<Id>, k: Outcome): set<Id> { set id | id in ids && OutcomeOf(t, id) == k }

  function For(t: Tally, ids: set<Id>, m: Address): set<Id>
    requires ids <= t.locks.Keys
  {
    set id | id in ids && t.locks[id].recipient == m
  }

  function Takers(t: Tally, ids: set<Id>): set<Address>
    requires ids <= t.locks.Keys
  {
    set id | id in ids :: t.locks[id].sender
  }

  function Makers(t: Tally, ids: set<Id>): set<Address>
    requires ids <= t.locks.Keys
  {
    set id | id in ids :: t.locks[id].recipient
  }

  /** The four figures for a set of swaps: how many distinct ones, by outcome. */
  function Figures(t: Tally, ids: set<Id>): MakerCounts {
    MakerCounts(|ids|, |Bucket(t, ids, Done)|, |Bucket(t, ids, Back)|, |Bucket(t, ids, Pending)|)
  }

  function Totals(c: SwapCounts): MakerCounts { MakerCounts(c.attempted, c.completed, c.refunded, c.stillOpen) }

  /** The report counts exactly the swaps `ids`: globally, per maker, and by wallet. */
  ghost predicate CountsOf(c: SwapCounts, t: Tally, ids: set<Id>)
    requires ids <= t.locks.Keys
  {
    && Totals(c) == Figures(t, ids)
    && c.distinctTakers == |Takers(t, ids)|
    && c.byMaker.Keys == Makers(t, ids)
    && forall m :: m in c.byMaker ==> c.byMaker[m] == Figures(t, For(t, ids, m))
  }

  function Bump(r: MakerCounts, k: Outcome): MakerCounts {
    var r' := r.(attempted := r.attempted + 1);
    match k
    case Done => r'.(completed := r.completed + 1)
    case Back => r'.(refunded := r.refunded + 1)
    case Pending => r'.(stillOpen := r.stillOpen + 1)
  }

  lemma BucketAdd(t: Tally, ids: set<Id>, id: Id, k: Outcome)
    requires id !in ids
    ensures |Bucket(t, ids + {id}, k)| == |Bucket(t, ids, k)| + (if OutcomeOf(t, id) == k then 1 else 0)
  {
    if OutcomeOf(t, id) == k {
      assert Bucket(t, ids + {id}, k) == Bucket(t, ids, k) + {id};
    } else {
      assert Bucket(t, ids + {id}, k) == Bucket(t, ids, k);
    }
  }

  lemma FiguresAdd(t: Tally, ids: set<Id>, id: Id)
    requires id !in ids
    ensures Figures(t, ids + {id}) == Bump(Figures(t, ids), OutcomeOf(t, id))
  {
    BucketAdd(t, ids, id, Done);
    BucketAdd(t, ids, id, Back);
    BucketAdd(t, ids, id, Pending);
  }

  lemma ForAdd(t: Tally, ids: set<Id>, id: Id, m: Address)
    requires ids <= t.locks.Keys && id in t.locks && id !in ids
    ensures Figures(t, For(t, ids + {id}, m))
      == if t.locks[id].recipient == m then Bump(Figures(t, For(t, ids, m)), OutcomeOf(t, id))
        else Figures(t, For(t, ids, m))
  {
    if t.locks[id].recipient == m {
      assert For(t, ids + {id}, m) == For(t, ids, m) + {id};
      FiguresAdd(t, For(t, ids, m), id);
    } else {
      assert For(t, ids + {id}, m) == For(t, ids, m);
    }
  }

  const NO_ROW: MakerCounts := MakerCounts(0, 0, 0, 0)

  /** One turn of the counting loop. */
  function Counted(c: SwapCounts, takers: set<Address>, t: Tally, id: Id): SwapCounts
    requires id in t.locks
  {
    var row := t.locks[id];
    var totals := Bump(Totals(c), OutcomeOf(t, id));
    var entry := if row.recipient in c.byMaker then c.byMaker[row.recipient] else NO_ROW;
    SwapCounts(totals.attempted, totals.completed, totals.refunded, totals.stillOpen, |takers + {row.sender}|,
               c.byMaker[row.recipient := Bump(entry, OutcomeOf(t, id))])
  }

  lemma CountedRow(c: SwapCounts, t: Tally, ids: set<Id>, id: Id, m: Address)
    requires ids <= t.locks.Keys && id in t.locks && id !in ids && CountsOf(c, t, ids)
    requires m in Counted(c, Takers(t, ids), t, id).byMaker
    ensures Counted(c, Takers(t, ids), t, id).byMaker[m] == Figures(t, For(t, ids + {id}, m))
  {
    ForAdd(t, ids, id, m);
    if m !in c.byMaker {
      assert For(t, ids, m) == {};
      assert Figures(t, {}) == NO_ROW;
    }
  }

  lemma WalletsAdd(t: Tally, ids: set<Id>, id: Id)
    requires ids <= t.locks.Keys && id in t.locks
    ensures Takers(t, ids + {id}) == Takers(t, ids) + {t.locks[id].sender}
    ensures Makers(t, ids + {id}) == Makers(t, ids) + {t.locks[id].recipient}
  {
  }

  lemma CountedOne(c: SwapCounts, t: Tally, ids: set<Id>, id: Id)
    requires ids <= t.locks.Keys && id in t.locks && id !in ids && CountsOf(c, t, ids)
    ensures CountsOf(Counted(c, Takers(t, ids), t, id), t, ids + {id})
    ensures Takers(t, ids + {id}) == Takers(t, ids) + {t.locks[id].sender}
  {
    FiguresAdd(t, ids, id);
    WalletsAdd(t, ids, id);
    var c' := Counted(c, Takers(t, ids), t, id);
    forall m | m in c'.byMaker ensures c'.byMaker[m] == Figures(t, For(t, ids + {id}, m)) {
      CountedRow(c, t, ids, id, m);
    }
  }

  // ----- what the figures are of the sets, and of the logs -----

  /** Four figures of the locks `ids`, from the sets alone: claimed ones are completed,
      refunded ones that were not claimed are refunded, the others are open. */
  ghost predicate FiguresOf(r: MakerCounts, t: Tally, ids: set<Id>) {
    && r.attempted == |ids| && r.completed == |ids * t.claimed|
    && r.refunded == |(ids * t.refunded) - t.claimed| && r.stillOpen == |ids - t.claimed - t.refunded|
  }

  /** The report's figures, globally and for each maker, and its wallets. */
  ghost predicate ReportOf(c: SwapCounts, t: Tally) {
    && FiguresOf(Totals(c), t, t.locks.Keys)
    && c.distinctTakers == |set id | id in t.locks :: t.locks[id].sender|
    && c.byMaker.Keys == (set id | id in t.locks :: t.locks[id].recipient)
    && forall m :: m in c.byMaker ==> FiguresOf(c.byMaker[m], t, set id | id in t.locks && t.locks[id].recipient == m)
  }

  lemma FiguresAreOf(t: Tally, ids: set<Id>)
    ensures FiguresOf(Figures(t, ids), t, ids)
  {
    assert Bucket(t, ids, Done) == ids * t.claimed;
    assert Bucket(t, ids, Back) == (ids * t.refunded) - t.claimed;
    assert Bucket(t, ids, Pending) == ids - t.claimed - t.refunded;
  }

  lemma MakerRowIsOf(c: SwapCounts, t: Tally, m: Address)
    requires CountsOf(c, t, t.locks.Keys) && m in c.byMaker
    ensures FiguresOf(c.byMaker[m], t, set id | id in t.locks && t.locks[id].recipient == m)
  {
    FiguresAreOf(t, For(t, t.locks.Keys, m));
    assert For(t, t.locks.Keys, m) == set id | id in t.locks && t.locks[id].recipient == m;
  }

  lemma WalletsAre(t: Tally)
    ensures Takers(t, t.locks.Keys) == set id | id in t.locks :: t.locks[id].sender
    ensures Makers(t, t.locks.Keys) == set id | id in t.locks :: t.locks[id].recipient
  {
  }

  lemma CountsAreReport(c: SwapCounts, t: Tally)
    requires CountsOf(c, t, t.locks.Keys)
    ensures ReportOf(c, t)
  {
    FiguresAreOf(t, t.locks.Keys);
    WalletsAre(t);
    forall m | m in c.byMaker
      ensures FiguresOf(c.byMaker[m], t, set id | id in t.locks && t.locks[id].recipient == m)
    {
      MakerRowIsOf(c, t, m);
    }
  }

  /** The swaps with a lock event among the logs. */
  function LockedIn(es: seq<Event>): set<Id> { set e | e in es && e.LockEvent? :: e.row.swapId }

  lemma SetsFromLogs(t: Tally, es: seq<Event>)
    requires TallyOf(t, es)
    ensures t.locks.Keys == LockedIn(es)
    ensures LockedIn(es) * t.claimed == set id | id in LockedIn(es) && ClaimEvent(id) in es
    ensures (LockedIn(es) * t.refunded) - t.claimed
      == set id | id in LockedIn(es) && RefundEvent(id) in es && ClaimEvent(id) !in es
    ensures LockedIn(es) - t.claimed - t.refunded
      == set id | id in LockedIn(es) && RefundEvent(id) !in es && ClaimEvent(id) !in es
  {
    forall id | id in t.locks ensures id in LockedIn(es) { assert LockEvent(t.locks[id]) in es; }
  }

  /** From the logs: a swap with a lock and a claim is completed, one with a lock and a
      refund but no claim is refunded, and any other with a lock is open. */
  lemma FiguresFromLogs(es: seq<Event>, c: SwapCounts)
    requires ReportOf(c, IngestAll(EMPTY, es))
    ensures c.attempted == |LockedIn(es)|
    ensures c.completed == |set id | id in LockedIn(es) && ClaimEvent(id) in es|
    ensures c.refunded == |set id | id in LockedIn(es) && RefundEvent(id) in es && ClaimEvent(id) !in es|
    ensures c.stillOpen == |set id | id in LockedIn(es) && RefundEvent(id) !in es && ClaimEvent(id) !in es|
  {
    IngestIsTallyOf(es);
    SetsFromLogs(IngestAll(EMPTY, es), es);
  }

  // ----- the buckets partition, and per-maker rows sum to them -----

  lemma Partition(t: Tally, ids: set<Id>)
    ensures Figures(t, ids).attempted == Figures(t, ids).completed + Figures(t, ids).refunded
      + Figures(t, ids).stillOpen
  {
    ThreeParts(ids, Bucket(t, ids, Done), Bucket(t, ids, Back), Bucket(t, ids, Pending));
  }

  lemma ThreeParts(all: set<Id>, a: set<Id>, b: set<Id>, c: set<Id>)
    requires all == a + b + c && a !! b && a !! c && b !! c
    ensures |all| == |a| + |b| + |c|
  {
    assert |a + b| == |a| + |b|;
  }

  ghost function SumRows(rows: map<Address, MakerCounts>, pick: MakerCounts -> nat): nat
    decreases rows.Keys
  {
    if rows == map[] then 0 else
      var m :| m in rows;
      assert m in rows.Keys;
      pick(rows[m]) + SumRows(rows - {m}, pick)
  }

  lemma SomeMaker(t: Tally, ids: set<Id>)
    requires ids <= t.locks.Keys
    ensures ids != {} ==> Makers(t, ids) != {}
  {
    if ids != {} {
      var id :| id in ids;
      assert t.locks[id].recipient in Makers(t, ids);
    }
  }

  /** Rows that each count the maker's share of `ids` sum to the size of `ids`. */
  lemma {:induction false} RowsSum(t: Tally, ids: set<Id>, rows: map<Address, MakerCounts>, pick: MakerCounts -> nat)
    requires ids <= t.locks.Keys && Makers(t, ids) <= rows.Keys
    requires forall m :: m in rows ==> pick(rows[m]) == |For(t, ids, m)|
    ensures SumRows(rows, pick) == |ids|
    decreases rows.Keys
  {
    if rows == map[] {
      SomeMaker(t, ids);
    } else {
      var m :| m in rows && SumRows(rows, pick) == pick(rows[m]) + SumRows(rows - {m}, pick);
      var mine := For(t, ids, m);
      var rest := ids - mine;
      forall k | k in rows - {m} ensures pick((rows - {m})[k]) == |For(t, rest, k)| {
        assert For(t, rest, k) == For(t, ids, k);
      }
      assert Makers(t, rest) <= (rows - {m}).Keys;
      RowsSum(t, rest, rows - {m}, pick);
      assert ids == mine + rest;
    }
  }

  function PickOf(k: Outcome): MakerCounts -> nat {
    match k
    case Done => (r: MakerCounts) => r.completed
    case Back => (r: MakerCounts) => r.refunded
    case Pending => (r: MakerCounts) => r.stillOpen
  }

  function PickAttempted(): MakerCounts -> nat { (r: MakerCounts) => r.attempted }

  lemma BucketRowsSum(t: Tally, ids: set<Id>, c: SwapCounts, k: Outcome)
    requires ids <= t.locks.Keys && CountsOf(c, t, ids)
    ensures SumRows(c.byMaker, PickOf(k)) == |Bucket(t, ids, k)| == PickOf(k)(Totals(c))
  {
    forall m | m in c.byMaker ensures PickOf(k)(c.byMaker[m]) == |For(t, Bucket(t, ids, k), m)| {
      assert Bucket(t, For(t, ids, m), k) == For(t, Bucket(t, ids, k), m);
    }
    RowsSum(t, Bucket(t, ids, k), c.byMaker, PickOf(k));
  }

  /** Every global figure is the sum of the per-maker rows, and the attempts split
      into completed, refunded and still open. */
  lemma MakerRowsSumUp(t: Tally, ids: set<Id>, c: SwapCounts)
    requires ids <= t.locks.Keys && CountsOf(c, t, ids)
    ensures c.attempted == c.completed + c.refunded + c.stillOpen
    ensures SumRows(c.byMaker, PickAttempted()) == c.attempted
    ensures SumRows(c.byMaker, PickOf(Done)) == c.completed
    ensures SumRows(c.byMaker, PickOf(Back)) == c.refunded
    ensures SumRows(c.byMaker, PickOf(Pending)) == c.stillOpen
  {
    Partition(t, ids);
    RowsSum(t, ids, c.byMaker, PickAttempted());
    BucketRowsSum(t, ids, c, Done);
    BucketRowsSum(t, ids, c, Back);
    BucketRowsSum(t, ids, c, Pending);
  }

  /** Terminal events without an in-window lock contribute nothing. */
  lemma StrayTerminalsIgnored(t: Tally, id: Id, c: SwapCounts)
    requires id !in t.locks
    ensures var u := Ingest(Ingest(t, ClaimEvent(id)), RefundEvent(id));
      CountsOf(c, u, u.locks.Keys) <==> CountsOf(c, t, t.locks.Keys)
  {
    var u := Ingest(Ingest(t, ClaimEvent(id)), RefundEvent(id));
    forall ids | ids <= t.locks.Keys ensures Figures(u, ids) == Figures(t, ids) {
      forall k ensures Bucket(u, ids, k) == Bucket(t, ids, k) {}
    }
    forall m ensures For(u, u.locks.Keys, m) == For(t, t.locks.Keys, m) {}
  }

  /** One turn of the counting loop, as the source takes it. */
  method CountOne(c: SwapCounts, takers: set<Address>, t: Tally, id: Id) returns (c': SwapCounts, takers': set<Address>)
    requires id in t.locks
    ensures c' == Counted(c, takers, t, id) && takers' == takers + {t.locks[id].sender}
  {
    var row := t.locks[id];
    takers' := takers + {row.sender};
    var entry := if row.recipient in c.byMaker then c.byMaker[row.recipient] else NO_ROW;
    entry := entry.(attempted := entry.attempted + 1);
    c' := c.(attempted := c.attempted + 1, distinctTakers := |takers'|);
    if id in t.claimed {
      c' := c'.(completed := c.completed + 1);
      entry := entry.(completed := entry.completed + 1);
    } else if id in t.refunded {
      c' := c'.(refunded := c.refunded + 1);
      entry := entry.(refunded := entry.refunded + 1);
    } else {
      c' := c'.(stillOpen := c.stillOpen + 1);
      entry := entry.(stillOpen := entry.stillOpen + 1);
    }
    c' := c'.(byMaker := c.byMaker[row.recipient := entry]);
  }

  lemma OpenIsTheRest(c: SwapCounts, t: Tally)
    requires CountsOf(c, t, t.locks.Keys)
    ensures c.attempted == |t.locks.Keys| && c.stillOpen == c.attempted - c.completed - c.refunded
  {
    Partition(t, t.locks.Keys);
  }

  lemma NothingCounted(t: Tally)
    ensures CountsOf(SwapCounts(0, 0, 0, 0, 0, map[]), t, {})
  {
  }

  /** The same turn, as what it adds to the swaps counted so far. */
  method CountNext(c: SwapCounts, takers: set<Address>, t: Tally, id: Id, ghost done: set<Id>)
    returns (c': SwapCounts, takers': set<Address>)
    requires done <= t.locks.Keys && id in t.locks && id !in done && CountsOf(c, t, done) && takers == Takers(t, done)
    ensures CountsOf(c', t, done + {id}) && takers' == Takers(t, done + {id})
  {
    CountedOne(c, t, done, id);
    c', takers' := CountOne(c, takers, t, id);
  }

  /** The counting loop: one turn per lock, in any order. */
  method CountLoop(t: Tally) returns (c: SwapCounts)
    ensures CountsOf(c, t, t.locks.Keys)
  {
    c := SwapCounts(0, 0, 0, 0, 0, map[]);
    NothingCounted(t);
    var takers: set<Address> := {};
    var done: set<Id> := {};
    while done != t.locks.Keys
      invariant done <= t.locks.Keys
      invariant takers == Takers(t, done)
      invariant CountsOf(c, t, done)
      decreases t.locks.Keys - done
    {
      var id :| id in t.locks.Keys && id !in done;
      c, takers := CountNext(c, takers, t, id, done);
      done := done + {id};
    }
  }

  /** `counts`: the loop, then the totals that are derived from it. */
  method Count(t: Tally) returns (c: SwapCounts)
    ensures ReportOf(c, t) && CountsOf(c, t, t.locks.Keys)
  {
    c := CountLoop(t);
    OpenIsTheRest(c, t);
    CountsAreReport(c, t);
    var attempted := |t.locks.Keys|;
    c := c.(attempted := attempted, stillOpen := attempted - c.completed - c.refunded);
  }

  // ----- the tally, updated in place -----

  class SwapTally {
    var locks: map<Id, LockedRow>
    var claimed: set<Id>
    var refunded: set<Id>

    function View(): Tally
      reads this
    {
      Tally(locks, claimed, refunded)
    }

    constructor ()
      ensures View() == EMPTY
    {
      locks, claimed, refunded := map[], {}, {};
    }

    method IngestLog(e: Event)
      modifies this
      ensures View() == Ingest(old(View()), e)
    {
      match e
      case LockEvent(row) =>
        if row.swapId !in locks {
          locks := locks[row.swapId := row];
        }
      case ClaimEvent(id) => claimed := claimed + {id};
      case RefundEvent(id) => refunded := refunded + {id};
      case UnknownEvent =>
    }

    method IngestLogs(es: seq<Event>)
      modifies this
      ensures View() == IngestAll(old(View()), es)
    {
      var i := 0;
      while i < |es|
        invariant 0 <= i <= |es|
        invariant View() == IngestAll(old(View()), es[..i])
      {
        assert es[..i + 1][..i] == es[..i];
        IngestLog(es[i]);
        i := i + 1;
      }
      assert es[..i] == es;
    }
  }
}
