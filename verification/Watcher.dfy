/** The polling event watcher (src/eth/watcher.rs). */
module Watcher {
  import opened Common

  const REPLAY_BLOCKS: nat := 256

  datatype Kind = Locked | Claimed | Refunded

  datatype Event = Event(kind: Kind, block: nat, id: nat)

  /** The contract's events in every block. */
  type Chain = nat -> seq<Event>

  ghost predicate WellFormed(chain: Chain) {
    forall b, e :: e in chain(b) ==> e.block == b
  }

  /** One turn of the loop: the head lookup fails, or answers and the three log
      queries each succeed or fail. */
  datatype Poll = HeadError | Head(latest: nat, lockedOk: bool, claimedOk: bool, refundedOk: bool)
  {
    predicate AllOk() { HeadError? || (lockedOk && claimedOk && refundedOk) }

    /** The deliberately lagged end of the queried range. */
    function To(): nat
      requires Head?
    {
      SatSub(latest, 1)
    }
  }

  function OfKind(s: seq<Event>, k: Kind): seq<Event> {
    if s == [] then [] else OfKind(s[..|s| - 1], k) + (if s[|s| - 1].kind == k then [s[|s| - 1]] else [])
  }

  /** All events of blocks `[a, b)`, and a successful query for one kind of them. */
  function Blocks(chain: Chain, a: nat, b: nat): seq<Event> {
    if b <= a then [] else Blocks(chain, a, b - 1) + chain(b - 1)
  }

  function Query(chain: Chain, k: Kind, a: nat, b: nat): seq<Event> { OfKind(Blocks(chain, a, b), k) }

  lemma {:induction false} OfKindMember(s: seq<Event>, k: Kind, e: Event)
    ensures e in OfKind(s, k) <==> e in s && e.kind == k
  {
    if s != [] {
      OfKindMember(s[..|s| - 1], k, e);
      assert s == s[..|s| - 1] + [s[|s| - 1]];
    }
  }

  lemma OfKindLast(s: seq<Event>, k: Kind)
    requires s != []
    ensures multiset(OfKind(s, k))
      == multiset(OfKind(s[..|s| - 1], k)) + OneIf(k, s[|s| - 1])
  {
  }

  lemma LastCounts(s: seq<Event>)
    requires s != []
    ensures multiset(s) == multiset(s[..|s| - 1]) + multiset{s[|s| - 1]}
  {
    assert s == s[..|s| - 1] + [s[|s| - 1]];
  }

  function OneIf(k: Kind, x: Event): multiset<Event> { if x.kind == k then multiset{x} else multiset{} }

  lemma OneMore(a: multiset<Event>, b: multiset<Event>, c: multiset<Event>, x: Event)
    ensures (a + OneIf(Locked, x)) + (b + OneIf(Claimed, x)) + (c + OneIf(Refunded, x)) == (a + b + c) + multiset{x}
  {
  }

  /** Three queries, one per kind, return each event once. */
  lemma {:induction false} KindsPartition(s: seq<Event>)
    ensures multiset(OfKind(s, Locked)) + multiset(OfKind(s, Claimed)) + multiset(OfKind(s, Refunded)) == multiset(s)
  {
    if s != [] {
      KindsPartition(s[..|s| - 1]);
      OfKindLast(s, Locked);
      OfKindLast(s, Claimed);
      OfKindLast(s, Refunded);
      LastCounts(s);
      OneMore(multiset(OfKind(s[..|s| - 1], Locked)), multiset(OfKind(s[..|s| - 1], Claimed)),
              multiset(OfKind(s[..|s| - 1], Refunded)), s[|s| - 1]);
    }
  }

  lemma {:induction false} BlocksMember(chain: Chain, a: nat, b: nat, e: Event)
    requires WellFormed(chain)
    ensures e in Blocks(chain, a, b) <==> a <= e.block < b && e in chain(e.block)
  {
    if a < b { BlocksMember(chain, a, b - 1, e); }
  }

  lemma {:induction false} BlocksSplit(chain: Chain, a: nat, m: nat, b: nat)
    requires a <= m <= b
    ensures Blocks(chain, a, m) + Blocks(chain, m, b) == Blocks(chain, a, b)
  {
    if m < b {
      BlocksSplit(chain, a, m, b - 1);
      assert Blocks(chain, a, m) + Blocks(chain, m, b) == (Blocks(chain, a, m) + Blocks(chain, m, b - 1))
        + chain(b - 1);
    }
  }

  /** Sends events one by one; the receiver takes `room` messages before it hangs up. */
  method Forward(sent: seq<Event>, events: seq<Event>, room: Option<nat>) returns (sent': seq<Event>, live: bool)
    ensures live ==> sent' == sent + events
    ensures exists n: nat :: n <= |events| && sent' == sent + events[..n]
    ensures room.None? ==> live
  {
    var i := 0;
    sent' := sent;
    while i < |events|
      invariant 0 <= i <= |events| && sent' == sent + events[..i]
    {
      if room.Some? && |sent'| >= room.value {
        return sent', false;
      }
      sent' := sent' + [events[i]];
      i := i + 1;
      assert events[..i] == events[..i - 1] + [events[i - 1]];
    }
    assert events[..i] == events;
    return sent', true;
  }

  /** Everything from `start` up to the cursor has been forwarded. */
  ghost predicate Covered(chain: Chain, sent: seq<Event>, start: nat, cursor: nat) {
    start <= cursor && forall e :: e in Blocks(chain, start, cursor) ==> e in sent
  }

  /** Nothing outside `[start, end)`, and nothing that is not on the chain, was forwarded. */
  ghost predicate Within(chain: Chain, sent: seq<Event>, start: nat, end: nat) {
    forall e :: e in sent ==> e in Blocks(chain, start, end)
  }

  lemma WithinGrows(chain: Chain, sent: seq<Event>, sent': seq<Event>, start: nat, h: nat, from: nat, end: nat, h': nat)
    requires WellFormed(chain) && Within(chain, sent, start, h) && start <= from && h <= h' && end <= h'
    requires forall e :: e in sent' ==> e in sent || e in Blocks(chain, from, end)
    ensures Within(chain, sent', start, h')
  {
    forall e | e in sent' ensures e in Blocks(chain, start, h') {
      BlocksMember(chain, start, h, e);
      BlocksMember(chain, from, end, e);
      BlocksMember(chain, start, h', e);
    }
  }

  lemma CoveredGrows(chain: Chain, sent: seq<Event>, start: nat, from: nat, end: nat)
    requires WellFormed(chain) && Covered(chain, sent, start, from) && from <= end
    requires forall e, k :: e in Query(chain, k, from, end) ==> e in sent
    ensures Covered(chain, sent, start, end)
  {
    BlocksSplit(chain, start, from, end);
    forall e | e in Blocks(chain, start, end) ensures e in sent {
      assert e in Blocks(chain, start, from) || e in Blocks(chain, from, end);
      OfKindMember(Blocks(chain, from, end), e.kind, e);
      assert e in Blocks(chain, from, end) ==> e in Query(chain, e.kind, from, end);
    }
  }

  /** One query and the forwarding of its answer. */
  method QueryAndForward(chain: Chain, k: Kind, from: nat, end: nat, ok: bool, sent: seq<Event>, room: Option<nat>)
    returns (sent': seq<Event>, live: bool)
    ensures live && ok ==> sent' == sent + Query(chain, k, from, end)
    ensures !ok ==> live && sent' == sent
    ensures sent <= sent' && (room.None? ==> live)
    ensures forall e :: e in sent' ==> e in sent || e in Blocks(chain, from, end)
  {
    if !ok {
      return sent, true;
    }
    var events := Query(chain, k, from, end);
    sent', live := Forward(sent, events, room);
    forall e | e in sent' ensures e in sent || e in Blocks(chain, from, end) {
      OfKindMember(Blocks(chain, from, end), k, e);
    }
  }

  /** Whether the cursor may have moved: only after three successful queries. */
  predicate Advances(p: Poll, from: nat) { p.Head? && p.To() >= from && p.AllOk() }

  /** What one turn of the loop may do to the events sent. */
  ghost predicate TurnKeeps(chain: Chain, from: nat, from': nat, sent: seq<Event>, sent': seq<Event>, p: Poll,
                            live: bool) {
    && sent <= sent' && from <= from'
    && (from' == if live && Advances(p, from) then p.To() + 1 else from)
    && (live && Advances(p, from) ==>
          sent' == sent + Query(chain, Locked, from, from') + Query(chain, Claimed, from, from')
            + Query(chain, Refunded, from, from'))
    && (p.HeadError? || p.To() < from ==> sent' == sent)
    && forall e :: e in sent' ==> e in sent || (p.Head? && e in Blocks(chain, from, p.To() + 1))
  }

  method Turn(chain: Chain, from: nat, sent: seq<Event>, p: Poll, room: Option<nat>)
    returns (from': nat, sent': seq<Event>, live: bool)
    ensures TurnKeeps(chain, from, from', sent, sent', p, live)
    ensures room.None? ==> live
  {
    from', sent', live := from, sent, true;
    if p.HeadError? {
      return;
    }
    var to := p.To();
    if to >= from {
      sent', live := QueryAndForward(chain, Locked, from, to + 1, p.lockedOk, sent', room);
      if !live || !p.lockedOk { return; }
      sent', live := QueryAndForward(chain, Claimed, from, to + 1, p.claimedOk, sent', room);
      if !live || !p.claimedOk { return; }
      sent', live := QueryAndForward(chain, Refunded, from, to + 1, p.refundedOk, sent', room);
      if !live || !p.refundedOk { return; }
      from' := to + 1;
    }
  }

  lemma TurnCovers(chain: Chain, start: nat, from: nat, from': nat, sent: seq<Event>, sent': seq<Event>, p: Poll,
                   live: bool)
    requires WellFormed(chain) && TurnKeeps(chain, from, from', sent, sent', p, live)
    requires Covered(chain, sent, start, from)
    ensures Covered(chain, sent', start, from')
  {
    forall e | e in sent ensures e in sent' {}
    if from' != from {
      forall e, k | e in Query(chain, k, from, from') ensures e in sent' {}
      CoveredGrows(chain, sent', start, from, from');
    }
  }

  lemma SplitCounts(sent: seq<Event>, before: seq<Event>, more: seq<Event>)
    requires multiset(sent) == multiset(before)
    ensures multiset(sent + OfKind(more, Locked) + OfKind(more, Claimed) + OfKind(more, Refunded))
      == multiset(before + more)
  {
    KindsPartition(more);
  }

  lemma TurnExact(chain: Chain, start: nat, from: nat, from': nat, sent: seq<Event>, sent': seq<Event>, p: Poll,
                  live: bool)
    requires start <= from && TurnKeeps(chain, from, from', sent, sent', p, live) && live && p.AllOk()
    requires multiset(sent) == multiset(Blocks(chain, start, from))
    ensures multiset(sent') == multiset(Blocks(chain, start, from'))
  {
    if Advances(p, from) {
      BlocksSplit(chain, start, from, from');
      SplitCounts(sent, Blocks(chain, start, from), Blocks(chain, from, from'));
    }
  }

  /** One past the highest lagged head any of the first `n` polls reported, at least `start`. */
  function Horizon(polls: seq<Poll>, start: nat): nat {
    if polls == [] then start else
      var h := Horizon(polls[..|polls| - 1], start);
      var p := polls[|polls| - 1];
      if p.HeadError? then h else Max(h, p.To() + 1)
  }

  predicate AllSucceed(polls: seq<Poll>) { forall i :: 0 <= i < |polls| ==> polls[i].AllOk() }

  /** The whole watch: everything below the cursor was forwarded at least once,
      nothing past the lagged head was, and without failures each event exactly once. */
  ghost predicate Watched(chain: Chain, polls: seq<Poll>, start: nat, cursor: nat, sent: seq<Event>, live: bool) {
    && Covered(chain, sent, start, cursor)
    && Within(chain, sent, start, Horizon(polls, start))
    && cursor <= Horizon(polls, start)
    && (live && AllSucceed(polls) ==>
        cursor == Horizon(polls, start) && multiset(sent) == multiset(Blocks(chain, start, cursor)))
  }

  lemma WatchedTurn(chain: Chain, polls: seq<Poll>, start: nat, from: nat, from': nat, sent: seq<Event>,
                    sent': seq<Event>, p: Poll, live: bool)
    requires WellFormed(chain) && Watched(chain, polls, start, from, sent, true)
    requires TurnKeeps(chain, from, from', sent, sent', p, live)
    ensures Watched(chain, polls + [p], start, from', sent', live)
  {
    var polls' := polls + [p];
    assert polls'[..|polls'| - 1] == polls;
    var h, h' := Horizon(polls, start), Horizon(polls', start);
    TurnCovers(chain, start, from, from', sent, sent', p, live);
    WithinGrows(chain, sent, sent', start, h, from, if p.Head? then p.To() + 1 else 0, h');
    if live && AllSucceed(polls') {
      assert forall i :: 0 <= i < |polls| ==> polls[i] == polls'[i];
      assert p == polls'[|polls|];
      TurnExact(chain, start, from, from', sent, sent', p, live);
    }
  }

  /** The horizon is one block behind the highest head reported, and not before the
      replay start; a chain of one block is read in full. */
  lemma {:induction false} HorizonLags(polls: seq<Poll>, start: nat)
    ensures start <= Horizon(polls, start)
    ensures forall i :: 0 <= i < |polls| && polls[i].Head? ==> Max(polls[i].latest, 1) <= Horizon(polls, start)
    ensures Horizon(polls, start) == start
      || exists i :: 0 <= i < |polls| && polls[i].Head? && Horizon(polls, start) == Max(polls[i].latest, 1)
  {
    if polls != [] {
      var init := polls[..|polls| - 1];
      HorizonLags(init, start);
      if Horizon(polls, start) == Horizon(init, start) != start {
        var i :| 0 <= i < |init| && init[i].Head? && Horizon(init, start) == Max(init[i].latest, 1);
        assert polls[i] == init[i];
      }
      forall i | 0 <= i < |polls| && polls[i].Head? ensures Max(polls[i].latest, 1) <= Horizon(polls, start) {
        if i < |init| { assert init[i] == polls[i]; }
      }
    }
  }

  /** Nothing is forwarded from a block at or past every head that was reported. */
  lemma NothingPastTheHead(chain: Chain, polls: seq<Poll>, start: nat, cursor: nat, sent: seq<Event>, live: bool,
                           e: Event)
    requires WellFormed(chain) && Watched(chain, polls, start, cursor, sent, live) && e in sent
    ensures exists i :: 0 <= i < |polls| && polls[i].Head? && start <= e.block < Max(polls[i].latest, 1)
  {
    BlocksMember(chain, start, Horizon(polls, start), e);
    HorizonLags(polls, start);
  }

  /** `watch_events` over any number of polls. */
  method Watch(chain: Chain, current: nat, polls: seq<Poll>, room: Option<nat>)
    returns (cursor: nat, sent: seq<Event>, turns: nat, live: bool)
    ensures turns <= |polls| && (room.None? ==> live && turns == |polls|)
    ensures WellFormed(chain) ==> Watched(chain, polls[..turns], SatSub(current, 256), cursor, sent, live)
  {
    var start := SatSub(current, REPLAY_BLOCKS);
    cursor, sent, turns, live := start, [], 0, true;
    var i := 0;
    while i < |polls|
      invariant 0 <= i <= |polls| && turns == i && live
      invariant WellFormed(chain) ==> Watched(chain, polls[..i], start, cursor, sent, true)
    {
      var cursor', sent', open := Turn(chain, cursor, sent, polls[i], room);
      assert polls[..i + 1] == polls[..i] + [polls[i]];
      if WellFormed(chain) {
        WatchedTurn(chain, polls[..i], start, cursor, cursor', sent, sent', polls[i], open);
      }
      cursor, sent, turns, live := cursor', sent', i + 1, open;
      i := i + 1;
      if !open {
        return;
      }
    }
  }
}
