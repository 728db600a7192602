/** Startup reconciliation of one journaled swap (`reconcile`, `resume_swap`,
    `recover_claimed_escrow`, `claim_eth` in src/cli/bot.rs): the decision as a
    function of what the pass read, the method that carries it out on the journal,
    and the soundness of the decision over every interleaving of its reads with
    the steps of the two chains. */
module Reconcile {
  import opened Common
  import opened Htlc
  import opened Reads
  import opened Journal

  // ----- pure classification -----

  datatype WedgeDisposition = QuarantineIt | RecoverClaimed | Dropped | Retain

  predicate IsPartialLockWedge(phase: Phase, now: nat, timelock: nat, balance: nat, amount: nat) {
    phase == Locked && now >= timelock && balance < amount
  }

  function ClassifyWedgeReread(pre: Option<Phase>, balance: Option<nat>, post: Option<Phase>,
                               now: nat, timelock: nat, amount: nat): WedgeDisposition
  {
    if pre == Some(Claimed) || post == Some(Claimed) then RecoverClaimed
    else if post == Some(Refunded) then Dropped
    else if pre == Some(Locked) && post == Some(Locked) && balance.Some?
            && IsPartialLockWedge(Locked, now, timelock, balance.value, amount) then QuarantineIt
    else Retain
  }

  datatype AbsentEscrowAction = RetirePreLock | RetainFunded | RetainInconclusive

  function ClassifyAbsentEscrow(stage: SwapStage, anyReadErrored: bool): AbsentEscrowAction {
    if anyReadErrored then RetainInconclusive else
      match stage
      case PreLock => RetirePreLock
      case Funded => RetainFunded
  }

  // ----- the ETH claim -----

  datatype EthClaimOutcome = ClaimMade | AlreadyTerminal | ClaimFailed

  /** What `claim_eth` meets: client construction, the first state read, whether a
      receipt comes back, and the re-check (`None` is a failed read). */
  datatype EthObs = EthObs(clientOk: bool, before: Option<EthPhase>, receipt: bool, after: Option<EthPhase>)

  function ClaimEth(parseable: bool, o: EthObs): EthClaimOutcome {
    if !parseable then AlreadyTerminal
    else if !o.clientOk then ClaimFailed
    else if o.before.Some? && o.before.value != Open then AlreadyTerminal
    else if o.receipt then ClaimMade
    else if o.after == Some(EthClaimed) then AlreadyTerminal
    else ClaimFailed
  }

  predicate RetainAfterEthClaim(outcome: EthClaimOutcome) { outcome == ClaimFailed }

  // ----- the decision -----

  datatype Why = CorruptEntry | EthResolved(outcome: EthClaimOutcome) | RefundObserved | BadPreimage

  datatype Verdict = Keep | Drop(why: Why) | WedgeQuarantine | RetireUnlocked | ResumeLive

  /** Everything one pass over one entry reads, in program order. */
  datatype Obs = Obs(
    first: nat -> EscrowRead,
    balance: nat -> Option<nat>,
    nowCheck: nat,
    pre: nat -> EscrowRead,
    newBalance: nat -> Option<nat>,
    post: nat -> EscrowRead,
    nowReread: nat,
    nowExpiry: nat,
    turns: nat -> Turn,
    limit: nat,
    eth: EthObs)

  function RecoverVerdict(parseable: bool, e: Escrow, eth: EthObs): Verdict {
    if e.preimage.Some? && |e.preimage.value| == 32 then
      var outcome := ClaimEth(parseable, eth);
      if RetainAfterEthClaim(outcome) then Keep else Drop(EthResolved(outcome))
    else Drop(BadPreimage)
  }

  function RefundVerdict(parseable: bool, outcome: RefundOutcome, eth: EthObs): Verdict {
    match outcome
    case RefundSeen => Drop(RefundObserved)
    case Unconfirmed => Keep
    case ClaimedByTaker(p) =>
      var c := ClaimEth(parseable, eth);
      if RetainAfterEthClaim(c) then Keep else Drop(EthResolved(c))
  }

  function PhaseOf(e: Option<Escrow>): Option<Phase> { if e.Some? then Some(e.value.phase) else None }

  function AmountOr(e: Option<Escrow>, default: nat): nat { if e.Some? then e.value.amount else default }

  function TimelockOr(e: Option<Escrow>, default: nat): nat { if e.Some? then e.value.timelock else default }

  function WedgeClass(e: Escrow, o: Obs): WedgeDisposition {
    var pre, post := BoundedRead(o.pre).escrow, BoundedRead(o.post).escrow;
    var preAmount := AmountOr(pre, e.amount);
    ClassifyWedgeReread(PhaseOf(pre), MaxBalance(o.newBalance, preAmount), PhaseOf(post), o.nowReread,
                        TimelockOr(post, TimelockOr(pre, e.timelock)), AmountOr(post, preAmount))
  }

  /** The claimed escrow the recovery acts on: the final read if it shows the
      claim, the earlier one otherwise. That one of them does is what the
      `expect` of the source relies on. */
  function ClaimedRead(e: Escrow, o: Obs): (r: Escrow)
    requires WedgeClass(e, o) == RecoverClaimed
    ensures r.phase == Claimed
  {
    var pre, post := BoundedRead(o.pre).escrow, BoundedRead(o.post).escrow;
    if PhaseOf(post) == Some(Claimed) then post.value else pre.value
  }

  function WedgeVerdict(parseable: bool, e: Escrow, o: Obs): Verdict {
    match WedgeClass(e, o)
    case QuarantineIt => WedgeQuarantine
    case RecoverClaimed => RecoverVerdict(parseable, ClaimedRead(e, o), o.eth)
    case Dropped => Drop(RefundObserved)
    case Retain => Keep
  }

  predicate WedgeCandidate(e: Escrow, o: Obs) {
    var b := MaxBalance(o.balance, e.amount);
    b.Some? && IsPartialLockWedge(e.phase, o.nowCheck, e.timelock, b.value, e.amount)
  }

  function LockedVerdict(parseable: bool, e: Escrow, o: Obs): Verdict {
    if MaxBalance(o.balance, e.amount).None? then Keep
    else if WedgeCandidate(e, o) then WedgeVerdict(parseable, e, o)
    else if o.nowExpiry >= e.timelock then RefundVerdict(parseable, RefundFrom(o.turns, o.limit, 0, 0).0, o.eth)
    else ResumeLive
  }

  function PassVerdict(stage: SwapStage, parseable: bool, o: Obs): Verdict {
    var r := BoundedRead(o.first);
    match r.escrow
    case None => if ClassifyAbsentEscrow(stage, r.anyErr) == RetirePreLock then RetireUnlocked else Keep
    case Some(e) =>
      match e.phase
      case Claimed => RecoverVerdict(parseable, e, o.eth)
      case Refunded => Drop(RefundObserved)
      case Locked => LockedVerdict(parseable, e, o)
  }

  /** How `resume_swap` ends: a watcher event, or the timer and the confirmed refund. */
  datatype ResumeObs =
    | SawClaim(preimage: Bytes, eth: EthObs)
    | SawRefund
    | TimedRefund(turns: nat -> Turn, limit: nat, eth: EthObs)

  function ResumeVerdict(parseable: bool, o: ResumeObs): Verdict {
    match o
    case SawClaim(p, eth) =>
      if |p| != 32 then Keep else
        var c := ClaimEth(parseable, eth);
        if RetainAfterEthClaim(c) then Keep else Drop(EthResolved(c))
    case SawRefund => Drop(RefundObserved)
    case TimedRefund(turns, limit, eth) => RefundVerdict(parseable, RefundFrom(turns, limit, 0, 0).0, eth)
  }

  // ----- carrying it out -----

  const WEDGE_REASON: string := "partial lock"
  const RETIRE_REASON: string := "pre-lock-abandoned"

  function Promoted(s: Store, entry: InFlightSwap, o: Obs, fault: Fault): Store {
    if BoundedRead(o.first).escrow.Some? && entry.stage == PreLock then MarkedFunded(s, entry.hashlock, fault) else s
  }

  function CarriedOut(s: Store, hashlock: string, v: Verdict, now: nat, fault: Fault): Store {
    match v
    case Keep => s
    case ResumeLive => s
    case Drop(_) => Removed(s, hashlock, fault)
    case WedgeQuarantine => MovedToQuarantine(s, hashlock, WEDGE_REASON, now, fault)
    case RetireUnlocked => MovedToQuarantine(s, hashlock, RETIRE_REASON, now, fault)
  }

  /** Inputs of one entry's pass: whether its ids parse, what it reads, and which
      of its journal writes fail. */
  datatype EntryInput = EntryInput(hashlockOk: bool, parseable: bool, o: Obs, now: nat, first: Fault, second: Fault)

  function EntryVerdict(entry: InFlightSwap, x: EntryInput): Verdict {
    if x.hashlockOk then PassVerdict(entry.stage, x.parseable, x.o) else Drop(CorruptEntry)
  }

  function AfterEntry(s: Store, entry: InFlightSwap, x: EntryInput): Store {
    CarriedOut(if x.hashlockOk then Promoted(s, entry, x.o, x.first) else s,
               entry.hashlock, EntryVerdict(entry, x), x.now, x.second)
  }

  method ReconcileEntry(store: StateStore, entry: InFlightSwap, x: EntryInput) returns (v: Verdict)
    requires x.o.turns(x.o.limit).late
    modifies store
    ensures v == EntryVerdict(entry, x) && store.View() == AfterEntry(old(store.View()), entry, x)
  {
    if !x.hashlockOk {
      store.Remove(entry.hashlock, x.second);
      return Drop(CorruptEntry);
    }
    var read := ReadEscrowBounded(x.o.first);
    if read.escrow.Some? {
      var escrow := read.escrow.value;
      if entry.stage == PreLock {
        store.MarkFunded(entry.hashlock, x.first);
      }
      match escrow.phase {
        case Claimed => v := RecoverVerdict(x.parseable, escrow, x.o.eth);
        case Refunded => v := Drop(RefundObserved);
        case Locked => v := DecideLocked(escrow, x.parseable, x.o);
      }
    } else {
      match ClassifyAbsentEscrow(entry.stage, read.anyErr) {
        case RetirePreLock => v := RetireUnlocked;
        case RetainFunded => v := Keep;
        case RetainInconclusive => v := Keep;
      }
    }
    match v {
      case Keep =>
      case ResumeLive =>
      case Drop(_) => store.Remove(entry.hashlock, x.second);
      case WedgeQuarantine => store.Quarantine(entry.hashlock, WEDGE_REASON, x.now, x.second);
      case RetireUnlocked => store.Quarantine(entry.hashlock, RETIRE_REASON, x.now, x.second);
    }
  }

  method DecideLocked(escrow: Escrow, parseable: bool, o: Obs) returns (v: Verdict)
    requires o.turns(o.limit).late
    ensures v == LockedVerdict(parseable, escrow, o)
  {
    var balance := MaxEscrowBalance(o.balance, escrow.amount);
    if balance.None? {
      return Keep;
    }
    if IsPartialLockWedge(escrow.phase, o.nowCheck, escrow.timelock, balance.value, escrow.amount) {
      var pre := ReadEscrowBounded(o.pre);
      var preAmount := AmountOr(pre.escrow, escrow.amount);
      var preTimelock := TimelockOr(pre.escrow, escrow.timelock);
      var newBalance := MaxEscrowBalance(o.newBalance, preAmount);
      var post := ReadEscrowBounded(o.post);
      match ClassifyWedgeReread(PhaseOf(pre.escrow), newBalance, PhaseOf(post.escrow), o.nowReread,
                                TimelockOr(post.escrow, preTimelock), AmountOr(post.escrow, preAmount)) {
        case QuarantineIt => return WedgeQuarantine;
        case RecoverClaimed =>
          var claimed := if PhaseOf(post.escrow) == Some(Claimed) then post.escrow.value else pre.escrow.value;
          return RecoverVerdict(parseable, claimed, o.eth);
        case Dropped => return Drop(RefundObserved);
        case Retain => return Keep;
      }
    }
    if o.nowExpiry >= escrow.timelock {
      var outcome, _, _ := RefundConfirmed(o.turns, o.limit);
      return RefundVerdict(parseable, outcome, o.eth);
    }
    return ResumeLive;
  }

  /** What a pass leaves in the journal: an entry that stays is there, as funded if an
      escrow was read and unchanged otherwise; one that goes is not. Every other entry
      stays as it was, and so do the tombstones unless it was quarantined or retired. */
  lemma EntryLeaves(s: Store, entry: InFlightSwap, x: EntryInput)
    requires entry in s.mem.inFlight && Unique(s.mem.inFlight)
    ensures var v := EntryVerdict(entry, x);
      var m := AfterEntry(s, entry, x).mem;
      && (Has(m, entry.hashlock) <==> v == Keep || v == ResumeLive)
      && v == (if x.hashlockOk then PassVerdict(entry.stage, x.parseable, x.o) else Drop(CorruptEntry))
      && ((v == Keep || v == ResumeLive) && !(exists e: Escrow :: FirstFound(x.o.first, e)) ==> m == s.mem)
      && (forall e: InFlightSwap :: e.hashlock != entry.hashlock ==> (e in m.inFlight <==> e in s.mem.inFlight))
      && (x.hashlockOk && (exists e: Escrow :: FirstFound(x.o.first, e)) ==>
            forall e :: e in m.inFlight && e.hashlock == entry.hashlock ==> e.stage == Funded)
      && (v != WedgeQuarantine && v != RetireUnlocked ==> m.quarantined == s.mem.quarantined)
  {
    var s1 := if x.hashlockOk then Promoted(s, entry, x.o, x.first) else s;
    PromotedLaw(s, entry, x.o, x.first);
    var v := EntryVerdict(entry, x);
    CarriedOutLaw(s1, entry.hashlock, v, x.now, x.second);
    if exists e: Escrow :: FirstFound(x.o.first, e) {
      var e: Escrow :| FirstFound(x.o.first, e);
      BoundedReadIsFirst(x.o.first, e);
    } else if BoundedRead(x.o.first).escrow.Some? {
      BoundedReadIsFirst(x.o.first, BoundedRead(x.o.first).escrow.value);
    }
  }

  lemma EntombedBefore(a: BotState, b: BotState, m: BotState, h: string)
    requires a.quarantined == b.quarantined && Entombed(b, m, h)
    requires forall id :: CarriesId(b.inFlight, h, id) ==> CarriesId(a.inFlight, h, id)
    ensures Entombed(a, m, h)
  {
  }

  /** Why and as what the entry is kept aside, when it is. */
  lemma EntryEntombed(s: Store, entry: InFlightSwap, x: EntryInput)
    requires entry in s.mem.inFlight && Unique(s.mem.inFlight)
    ensures var v := EntryVerdict(entry, x);
      var m := AfterEntry(s, entry, x).mem;
      && (v == WedgeQuarantine || v == RetireUnlocked ==> Entombed(s.mem, m, entry.hashlock))
      && (v == WedgeQuarantine ==> SaysWhy(s.mem, m, entry.hashlock, "partial lock"))
      && (v == RetireUnlocked ==> SaysWhy(s.mem, m, entry.hashlock, "pre-lock-abandoned"))
  {
    var s1 := if x.hashlockOk then Promoted(s, entry, x.o, x.first) else s;
    var v := EntryVerdict(entry, x);
    PromotedLaw(s, entry, x.o, x.first);
    CarriedOutLaw(s1, entry.hashlock, v, x.now, x.second);
    if v == WedgeQuarantine || v == RetireUnlocked {
      EntombedBefore(s.mem, s1.mem, AfterEntry(s, entry, x).mem, entry.hashlock);
    }
  }

  lemma PromotedLaw(s: Store, entry: InFlightSwap, o: Obs, fault: Fault)
    requires entry in s.mem.inFlight && Unique(s.mem.inFlight)
    ensures var m := Promoted(s, entry, o, fault).mem;
      && Has(m, entry.hashlock) && m.quarantined == s.mem.quarantined
      && (forall e: InFlightSwap :: e.hashlock != entry.hashlock ==> (e in m.inFlight <==> e in s.mem.inFlight))
      && (BoundedRead(o.first).escrow.None? ==> m == s.mem)
      && (BoundedRead(o.first).escrow.Some? ==>
            forall e :: e in m.inFlight && e.hashlock == entry.hashlock ==> e.stage == Funded)
      && (forall id :: CarriesId(m.inFlight, entry.hashlock, id) ==> CarriesId(s.mem.inFlight, entry.hashlock, id))
  {
    MarkFundedLaw(s, entry.hashlock, fault);
    UpgradedCarries(s.mem.inFlight, entry.hashlock);
    assert Has(s.mem, entry.hashlock);
    HasUpgraded(s.mem, entry.hashlock, entry.hashlock);
  }

  lemma CarriedOutLaw(s: Store, h: string, v: Verdict, now: nat, fault: Fault)
    requires Has(s.mem, h)
    ensures var m := CarriedOut(s, h, v, now, fault).mem;
      && (Has(m, h) <==> v == Keep || v == ResumeLive)
      && (v == Keep || v == ResumeLive ==> m == s.mem)
      && (forall e: InFlightSwap :: e.hashlock != h ==> (e in m.inFlight <==> e in s.mem.inFlight))
      && (v == WedgeQuarantine || v == RetireUnlocked ==> Entombed(s.mem, m, h))
      && (v == WedgeQuarantine ==> SaysWhy(s.mem, m, h, WEDGE_REASON))
      && (v == RetireUnlocked ==> SaysWhy(s.mem, m, h, RETIRE_REASON))
      && (v.Drop? ==> m.quarantined == s.mem.quarantined)
  {
    RemoveLaw(s, h, fault);
    QuarantineLaw(s, h, if v == WedgeQuarantine then WEDGE_REASON else RETIRE_REASON, now, fault);
  }

  function AfterEntries(s: Store, entries: seq<InFlightSwap>, xs: nat -> EntryInput, i: nat): Store
    requires i <= |entries|
    decreases |entries| - i
  {
    if i == |entries| then s else AfterEntries(AfterEntry(s, entries[i], xs(i)), entries, xs, i + 1)
  }

  lemma StaysUnique(s: Store, entry: InFlightSwap, x: EntryInput)
    requires Unique(s.mem.inFlight)
    ensures Unique(AfterEntry(s, entry, x).mem.inFlight)
  {
    UpgradedMembers(s.mem.inFlight, entry.hashlock);
    var s1 := if x.hashlockOk then Promoted(s, entry, x.o, x.first) else s;
    WithoutUnique(s1.mem.inFlight, entry.hashlock);
  }

  predicate Stays(v: Verdict) { v == Keep || v == ResumeLive }

  predicate Buried(v: Verdict) { v == WedgeQuarantine || v == RetireUnlocked }

  /** One entry's pass settles its own hashlock and leaves every other as it was. */
  ghost predicate Untouched(a: BotState, b: BotState, h: string) {
    && (IsEntombed(a, h) <==> IsEntombed(b, h))
    && forall e: InFlightSwap :: e.hashlock == h ==> (e in a.inFlight <==> e in b.inFlight)
  }

  /** The entry is there exactly if its verdict says so, and is a tombstone exactly if
      it was quarantined or retired, or its hashlock was a tombstone before. */
  predicate SettledAs(a: BotState, b: BotState, h: string, v: Verdict) {
    && (Has(b, h) <==> Stays(v))
    && (IsEntombed(b, h) <==> IsEntombed(a, h) || Buried(v))
  }

  lemma EntrySettles(s: Store, entry: InFlightSwap, x: EntryInput)
    requires entry in s.mem.inFlight && Unique(s.mem.inFlight)
    ensures var m := AfterEntry(s, entry, x).mem;
      && SettledAs(s.mem, m, entry.hashlock, EntryVerdict(entry, x))
      && forall h :: h != entry.hashlock ==> Untouched(s.mem, m, h)
  {
    EntryLeaves(s, entry, x);
    EntryEntombed(s, entry, x);
    var m := AfterEntry(s, entry, x).mem;
    forall h | h != entry.hashlock ensures Untouched(s.mem, m, h) {
      assert forall q :: q in s.mem.quarantined ==> q in m.quarantined;
    }
  }

  predicate Among(entries: seq<InFlightSwap>, i: nat, h: string) {
    exists k :: i <= k < |entries| && entries[k].hashlock == h
  }

  /** What a whole pass leaves: each entry of the snapshot as its own verdict says, and
      every other hashlock as it was. */
  ghost predicate PassLeaves(a: BotState, b: BotState, entries: seq<InFlightSwap>, xs: nat -> EntryInput, i: nat) {
    && (forall k :: i <= k < |entries| ==> SettledAs(a, b, entries[k].hashlock, EntryVerdict(entries[k], xs(k))))
    && forall h :: !Among(entries, i, h) ==> Untouched(a, b, h)
  }

  lemma PassStep(a: BotState, m: BotState, b: BotState, entries: seq<InFlightSwap>, xs: nat -> EntryInput, i: nat)
    requires i < |entries| && Unique(entries) && PassLeaves(m, b, entries, xs, i + 1)
    requires SettledAs(a, m, entries[i].hashlock, EntryVerdict(entries[i], xs(i)))
    requires forall h :: h != entries[i].hashlock ==> Untouched(a, m, h)
    ensures PassLeaves(a, b, entries, xs, i)
  {
    forall k | i <= k < |entries| ensures SettledAs(a, b, entries[k].hashlock, EntryVerdict(entries[k], xs(k))) {
      var h := entries[k].hashlock;
      if k == i {
        assert Untouched(m, b, h);
      } else {
        assert Untouched(a, m, h);
      }
    }
    forall h | !Among(entries, i, h) ensures Untouched(a, b, h) {
      assert !Among(entries, i + 1, h);
      assert Untouched(a, m, h) && Untouched(m, b, h);
    }
  }

  lemma {:induction false} AllEntriesSettle(s: Store, entries: seq<InFlightSwap>, xs: nat -> EntryInput, i: nat)
    requires i <= |entries| && Unique(entries) && Unique(s.mem.inFlight)
    requires forall k :: i <= k < |entries| ==> entries[k] in s.mem.inFlight
    ensures PassLeaves(s.mem, AfterEntries(s, entries, xs, i).mem, entries, xs, i)
    decreases |entries| - i
  {
    if i < |entries| {
      var t := AfterEntry(s, entries[i], xs(i));
      EntrySettles(s, entries[i], xs(i));
      StaysUnique(s, entries[i], xs(i));
      forall k | i < k < |entries| ensures entries[k] in t.mem.inFlight {
        assert Untouched(s.mem, t.mem, entries[k].hashlock);
      }
      AllEntriesSettle(t, entries, xs, i + 1);
      PassStep(s.mem, t.mem, AfterEntries(t, entries, xs, i + 1).mem, entries, xs, i);
    }
  }

  /** So a pass leaves every entry of the journal as its own verdict says, and no other
      hashlock enters or turns into a tombstone. */
  lemma PassSettlesAll(s: Store, xs: nat -> EntryInput)
    requires Unique(s.mem.inFlight)
    ensures PassLeaves(s.mem, AfterEntries(s, s.mem.inFlight, xs, 0).mem, s.mem.inFlight, xs, 0)
    ensures forall e :: e in AfterEntries(s, s.mem.inFlight, xs, 0).mem.inFlight ==>
      Among(s.mem.inFlight, 0, e.hashlock)
  {
    AllEntriesSettle(s, s.mem.inFlight, xs, 0);
    var m := AfterEntries(s, s.mem.inFlight, xs, 0).mem;
    assert forall h :: !Among(s.mem.inFlight, 0, h) ==> Untouched(s.mem, m, h);
  }

  /** The pass over the whole snapshot; without a LEZ client the journal is kept. */
  method ReconcileAll(store: StateStore, clientOk: bool, xs: nat -> EntryInput) returns (verdicts: seq<Verdict>)
    requires forall i :: 0 <= i < |store.inFlight| ==> xs(i).o.turns(xs(i).o.limit).late
    modifies store
    ensures !clientOk ==> verdicts == [] && store.View() == old(store.View())
    ensures clientOk ==> |verdicts| == |old(store.inFlight)|
    ensures forall i :: 0 <= i < |verdicts| ==> verdicts[i] == EntryVerdict(old(store.inFlight)[i], xs(i))
    ensures clientOk ==> store.View() == AfterEntries(old(store.View()), old(store.inFlight), xs, 0)
  {
    var entries := store.inFlight;
    verdicts := [];
    if !clientOk {
      return;
    }
    var i := 0;
    while i < |entries|
      invariant 0 <= i <= |entries| && |verdicts| == i
      invariant forall k :: 0 <= k < i ==> verdicts[k] == EntryVerdict(entries[k], xs(k))
      invariant AfterEntries(store.View(), entries, xs, i) == AfterEntries(old(store.View()), entries, xs, 0)
    {
      var v := ReconcileEntry(store, entries[i], xs(i));
      verdicts := verdicts + [v];
      i := i + 1;
    }
  }

  // ----- what the reads have to do with the chains -----

  /** Every escrow these reads returned was really there at some instant of
      `[lo, hi]`. Errors and absent answers promise nothing. */
  ghost predicate SeenDuring(h: seq<World>, lo: nat, hi: nat, answers: nat -> EscrowRead) {
    && lo <= hi < |h|
    && forall k :: 0 <= k < MAX_READS && answers(k).ReadFound? ==>
         exists t :: lo <= t <= hi && h[t].lez.escrow == Some(answers(k).escrow)
  }

  /** The same for the turns of a refund confirmation. */
  ghost predicate TurnsDuring(h: seq<World>, lo: nat, hi: nat, turns: nat -> Turn) {
    && lo <= hi < |h|
    && forall k: nat :: turns(k).read.ReadFound? ==>
         exists t :: lo <= t <= hi && h[t].lez.escrow == Some(turns(k).read.escrow)
  }

  /** Five error-free absent answers include a truthful one. */
  ghost predicate HonestAbsence(h: seq<World>, lo: nat, hi: nat, answers: nat -> EscrowRead) {
    && lo <= hi < |h|
    && ((forall k :: 0 <= k < MAX_READS ==> answers(k) == ReadAbsent) ==>
          exists t :: lo <= t <= hi && h[t].lez.escrow.None?)
  }

  /** Among balance reads that answered, one is truthful; the others may be phantoms. */
  ghost predicate HonestBalance(h: seq<World>, lo: nat, hi: nat, answers: nat -> Option<nat>) {
    && lo <= hi < |h|
    && ((exists k :: 0 <= k < MAX_READS && answers(k).Some?) ==>
          exists k, t :: 0 <= k < MAX_READS && lo <= t <= hi && answers(k) == Some(h[t].lez.balance))
  }

  /** ETH state reads are truthful, and a receipt is a successful claim. */
  ghost predicate EthHonest(h: seq<World>, lo: nat, hi: nat, o: EthObs) {
    && lo <= hi < |h|
    && (o.before.Some? ==> exists t :: lo <= t <= hi && h[t].eth.phase == o.before.value)
    && (o.receipt ==> exists t :: lo <= t <= hi && h[t].eth.phase == EthClaimed)
    && (o.after.Some? ==> exists t :: lo <= t <= hi && h[t].eth.phase == o.after.value)
  }

  /** When the phases of a pass began: first reads in `[start, check]`, the wedge
      check at `check`, then `pre` up to `mid`, the balance up to `late`, `post`
      up to `end`. */
  datatype Times = Times(start: nat, check: nat, mid: nat, late: nat, end: nat)

  ghost predicate Consistent(h: seq<World>, ts: Times, o: Obs) {
    && ts.start <= ts.check <= ts.mid <= ts.late <= ts.end < |h|
    && SeenDuring(h, ts.start, ts.check, o.first) && HonestAbsence(h, ts.start, ts.check, o.first)
    && o.nowCheck <= h[ts.check].now
    && SeenDuring(h, ts.check, ts.mid, o.pre)
    && HonestBalance(h, ts.mid, ts.late, o.newBalance)
    && SeenDuring(h, ts.late, ts.end, o.post)
    && TurnsDuring(h, ts.check, ts.end, o.turns)
    && EthHonest(h, ts.start, ts.end, o.eth)
  }

  predicate PhaseAt(h: seq<World>, t: nat, p: Phase) {
    t < |h| && h[t].lez.escrow.Some? && h[t].lez.escrow.value.phase == p
  }

  lemma FoundAt(h: seq<World>, lo: nat, hi: nat, answers: nat -> EscrowRead) returns (t: nat)
    requires SeenDuring(h, lo, hi, answers) && BoundedRead(answers).escrow.Some?
    ensures lo <= t <= hi && h[t].lez.escrow == BoundedRead(answers).escrow
  {
    BoundedReadMeaning(answers);
    var k :| 0 <= k < MAX_READS && answers(k) == ReadFound(BoundedRead(answers).escrow.value);
    t :| lo <= t <= hi && h[t].lez.escrow == Some(answers(k).escrow);
  }

  /** A terminal phase seen once is the phase at every later instant, and no other
      terminal phase is ever seen. */
  lemma TerminalIsFinal(sha: Digest, hl: Bytes, h: seq<World>, t: nat, u: nat)
    requires History(sha, hl, h) && t <= u < |h| && h[t].lez.escrow.Some? && h[t].lez.escrow.value.phase != Locked
    ensures h[u].lez.escrow == h[t].lez.escrow
  {
    HistoryEvolves(sha, hl, h, t, u);
  }

  lemma OneTerminal(sha: Digest, hl: Bytes, h: seq<World>, t: nat, u: nat)
    requires History(sha, hl, h) && PhaseAt(h, t, Claimed) && u < |h|
    ensures !PhaseAt(h, u, Refunded)
    ensures t <= u ==> PhaseAt(h, u, Claimed)
  {
    if t <= u {
      TerminalIsFinal(sha, hl, h, t, u);
    } else if PhaseAt(h, u, Refunded) {
      TerminalIsFinal(sha, hl, h, u, t);
    }
  }

  /** Quarantine is sound: some instant between the two confirming state reads,
      after the timelock, really had less than the locked amount, and the escrow
      was `Locked` from the first of those reads to the last. */
  lemma WedgeQuarantineSound(sha: Digest, hl: Bytes, h: seq<World>, ts: Times, stage: SwapStage, parseable: bool,
                             o: Obs)
    returns (from: nat, low: nat, to: nat)
    requires History(sha, hl, h) && Consistent(h, ts, o) && PassVerdict(stage, parseable, o) == WedgeQuarantine
    ensures ts.check <= from <= ts.mid <= low <= ts.late <= to <= ts.end
    ensures forall t :: from <= t <= to ==> PhaseAt(h, t, Locked)
    ensures PhaseAt(h, low, Locked)
    ensures h[low].now >= h[low].lez.escrow.value.timelock && h[low].lez.balance < h[low].lez.escrow.value.amount
  {
    var e := BoundedRead(o.first).escrow.value;
    var seen := FoundAt(h, ts.start, ts.check, o.first);
    from := FoundAt(h, ts.check, ts.mid, o.pre);
    to := FoundAt(h, ts.late, ts.end, o.post);
    forall t | from <= t <= to ensures PhaseAt(h, t, Locked) {
      HistoryEvolves(sha, hl, h, from, t);
      HistoryEvolves(sha, hl, h, t, to);
    }
    HistoryEvolves(sha, hl, h, seen, from);
    HistoryEvolves(sha, hl, h, from, to);
    MaxBalanceMeaning(o.newBalance, e.amount);
    var k;
    k, low :| 0 <= k < MAX_READS && ts.mid <= low <= ts.late && o.newBalance(k) == Some(h[low].lez.balance);
    HistoryEvolves(sha, hl, h, from, low);
    HistoryEvolves(sha, hl, h, ts.check, low);
  }

  /** An outcome that lets the journal go really saw the ETH side settled. */
  lemma EthResolvedSound(h: seq<World>, lo: nat, hi: nat, o: EthObs)
    requires EthHonest(h, lo, hi, o) && !RetainAfterEthClaim(ClaimEth(true, o))
    ensures exists t :: lo <= t <= hi && h[t].eth.phase != Open
    ensures ClaimEth(true, o) == ClaimMade ==> exists t :: lo <= t <= hi && h[t].eth.phase == EthClaimed
  {
  }

  /** A refund is dropped on only if the escrow really was `Refunded`. */
  lemma RefundDropSound(sha: Digest, hl: Bytes, h: seq<World>, ts: Times, stage: SwapStage, parseable: bool, o: Obs)
    requires History(sha, hl, h) && Consistent(h, ts, o) && PassVerdict(stage, parseable, o) == Drop(RefundObserved)
    ensures exists t :: ts.start <= t <= ts.end && PhaseAt(h, t, Refunded)
  {
    var e := BoundedRead(o.first).escrow.value;
    var t := FoundAt(h, ts.start, ts.check, o.first);
    if e.phase == Locked {
      if WedgeCandidate(e, o) {
        t := FoundAt(h, ts.late, ts.end, o.post);
      } else {
        RefundFromMeaning(o.turns, o.limit, 0, 0);
        var last := RefundFrom(o.turns, o.limit, 0, 0).1;
        t :| ts.check <= t <= ts.end && h[t].lez.escrow == Some(o.turns(last).read.escrow);
      }
    }
    assert PhaseAt(h, t, Refunded);
  }

  /** The ETH side is settled for good only if the escrow really was `Claimed`. */
  lemma EthDropSound(sha: Digest, hl: Bytes, h: seq<World>, ts: Times, stage: SwapStage, parseable: bool, o: Obs)
    requires History(sha, hl, h) && Consistent(h, ts, o)
    requires var v := PassVerdict(stage, parseable, o); v.Drop? && v.why.EthResolved?
    ensures exists t :: ts.start <= t <= ts.end && PhaseAt(h, t, Claimed)
  {
    var e := BoundedRead(o.first).escrow.value;
    var t := FoundAt(h, ts.start, ts.check, o.first);
    if e.phase == Locked {
      if WedgeCandidate(e, o) {
        if PhaseOf(BoundedRead(o.post).escrow) == Some(Claimed) {
          t := FoundAt(h, ts.late, ts.end, o.post);
        } else {
          t := FoundAt(h, ts.check, ts.mid, o.pre);
        }
      } else {
        RefundFromMeaning(o.turns, o.limit, 0, 0);
        var last := RefundFrom(o.turns, o.limit, 0, 0).1;
        t :| ts.check <= t <= ts.end && h[t].lez.escrow == Some(o.turns(last).read.escrow);
      }
    }
    assert PhaseAt(h, t, Claimed);
  }

  /** The branch for a claimed escrow without a usable preimage is dead: the guest
      program stores a 32-byte preimage on every claim. */
  lemma NeverBadPreimage(sha: Digest, hl: Bytes, h: seq<World>, ts: Times, stage: SwapStage, parseable: bool, o: Obs)
    requires History(sha, hl, h) && Consistent(h, ts, o)
    ensures PassVerdict(stage, parseable, o) != Drop(BadPreimage)
  {
    var r := BoundedRead(o.first).escrow;
    if r.Some? {
      var t := FoundAt(h, ts.start, ts.check, o.first);
      HistoryValid(sha, hl, h, t);
      if r.value.phase == Locked && WedgeCandidate(r.value, o) && WedgeClass(r.value, o) == RecoverClaimed {
        if PhaseOf(BoundedRead(o.post).escrow) == Some(Claimed) {
          t := FoundAt(h, ts.late, ts.end, o.post);
        } else {
          t := FoundAt(h, ts.check, ts.mid, o.pre);
        }
        HistoryValid(sha, hl, h, t);
      }
    }
  }

  /** Absence retires an entry exactly when it was journaled before the lock and
      all five reads were answered and absent: a funded entry, or one erroring
      read, always keeps it. */
  lemma RetiresIff(stage: SwapStage, parseable: bool, o: Obs)
    ensures PassVerdict(stage, parseable, o) == RetireUnlocked <==>
      stage == PreLock && forall k :: 0 <= k < MAX_READS ==> o.first(k) == ReadAbsent
  {
    BoundedReadMeaning(o.first);
  }

  // ----- when each verdict is given -----

  /** The ETH side counts as settled: the id names no swap, or the client was built
      and the HTLC was read out of `OPEN`, a receipt came back, or the re-check read
      `CLAIMED`. */
  predicate EthSettled(parseable: bool, o: EthObs) {
    || !parseable
    || (o.clientOk && ((o.before.Some? && o.before.value != Open) || o.receipt || o.after == Some(EthClaimed)))
  }

  /** A claim is reported made exactly if a receipt came back for an open HTLC. */
  lemma ClaimEthIff(parseable: bool, o: EthObs)
    ensures !RetainAfterEthClaim(ClaimEth(parseable, o)) <==> EthSettled(parseable, o)
    ensures ClaimEth(parseable, o) == ClaimMade <==>
      parseable && o.clientOk && (o.before.None? || o.before.value == Open) && o.receipt
  {
  }

  /** The entry leaves because the ETH side is settled. */
  predicate Resolved(v: Verdict) { v.Drop? && v.why.EthResolved? }

  predicate Revealed(e: Escrow) { e.phase == Claimed && e.preimage.Some? && |e.preimage.value| == 32 }

  lemma RecoverIff(parseable: bool, e: Escrow, eth: EthObs)
    requires Revealed(e)
    ensures var v := RecoverVerdict(parseable, e, eth);
      if EthSettled(parseable, eth) then v == Drop(EthResolved(ClaimEth(parseable, eth))) else v == Keep
  {
    ClaimEthIff(parseable, eth);
  }

  /** A claimed escrow, read first, is recovered: the entry leaves exactly if the ETH
      side is settled, and stays otherwise. */
  lemma ClaimedFirst(stage: SwapStage, parseable: bool, o: Obs, e: Escrow)
    requires FirstFound(o.first, e) && Revealed(e)
    ensures var v := PassVerdict(stage, parseable, o);
      if EthSettled(parseable, o.eth) then v == Drop(EthResolved(ClaimEth(parseable, o.eth))) else v == Keep
  {
    BoundedReadIsFirst(o.first, e);
    RecoverIff(parseable, e, o.eth);
  }

  /** A refunded escrow, read first, always drops the entry. */
  lemma RefundedFirst(stage: SwapStage, parseable: bool, o: Obs, e: Escrow)
    requires FirstFound(o.first, e) && e.phase == Refunded
    ensures PassVerdict(stage, parseable, o) == Drop(RefundObserved)
  {
    BoundedReadIsFirst(o.first, e);
  }

  /** The confirmed refund saw the refund, or a claim with its preimage. */
  ghost predicate SawClaimBy(turns: nat -> Turn) {
    exists p: Bytes :: ConfirmsBy(turns, ClaimedByTaker(p))
  }

  lemma RefundVerdictIff(parseable: bool, turns: nat -> Turn, limit: nat, eth: EthObs)
    requires turns(limit).late
    ensures var v := RefundVerdict(parseable, RefundFrom(turns, limit, 0, 0).0, eth);
      && (v == Drop(RefundObserved) <==> ConfirmsBy(turns, RefundSeen))
      && (Resolved(v) <==> SawClaimBy(turns) && EthSettled(parseable, eth))
      && (v == Drop(RefundObserved) || Resolved(v) || v == Keep)
  {
    var r := RefundFrom(turns, limit, 0, 0).0;
    RefundIff(turns, limit, r);
    RefundIff(turns, limit, RefundSeen);
    ClaimEthIff(parseable, eth);
    if SawClaimBy(turns) {
      var p :| ConfirmsBy(turns, ClaimedByTaker(p));
      RefundIff(turns, limit, ClaimedByTaker(p));
    }
  }

  /** The balance reads, and the clock, make the locked escrow a wedge candidate. */
  lemma CandidateIff(e: Escrow, o: Obs)
    requires e.phase == Locked
    ensures WedgeCandidate(e, o) <==> o.nowCheck >= e.timelock && ReadsShort(o.balance, e.amount)
  {
    ShortIff(o.balance, e.amount);
  }

  ghost predicate NoBalanceRead(o: Obs) { forall k :: 0 <= k < MAX_READS ==> o.balance(k).None? }

  /** A locked escrow, read first. Without any balance read the entry stays. A funded
      one, or one not yet expired, is refunded once expired and resumed before. */
  lemma LockedFirst(stage: SwapStage, parseable: bool, o: Obs, e: Escrow)
    requires FirstFound(o.first, e) && e.phase == Locked && o.turns(o.limit).late
    ensures var v := PassVerdict(stage, parseable, o);
      && (NoBalanceRead(o) ==> v == Keep)
      && (!NoBalanceRead(o) && !(o.nowCheck >= e.timelock && ReadsShort(o.balance, e.amount)) ==>
          if o.nowExpiry < e.timelock then v == ResumeLive
          else
            && (v == Drop(RefundObserved) <==> ConfirmsBy(o.turns, RefundSeen))
            && (Resolved(v) <==> SawClaimBy(o.turns) && EthSettled(parseable, o.eth))
            && (v == Drop(RefundObserved) || Resolved(v) || v == Keep))
  {
    BoundedReadIsFirst(o.first, e);
    MaxBalanceMeaning(o.balance, e.amount);
    CandidateIff(e, o);
    RefundVerdictIff(parseable, o.turns, o.limit, o.eth);
  }

  /** The confirming reads show the escrow locked twice, with every answered balance
      between them short, after its timelock. */
  ghost predicate ConfirmedWedge(o: Obs, pre: Escrow, post: Escrow) {
    && FirstFound(o.pre, pre) && pre.phase == Locked && FirstFound(o.post, post) && post.phase == Locked
    && o.nowReread >= post.timelock && ReadsShort(o.newBalance, post.amount)
  }

  ghost predicate SeenClaimed(o: Obs) {
    || (exists e: Escrow :: FirstFound(o.post, e) && e.phase == Claimed)
    || (exists e: Escrow :: FirstFound(o.pre, e) && e.phase == Claimed)
  }

  lemma WedgeClassIff(e: Escrow, o: Obs)
    ensures WedgeClass(e, o) == RecoverClaimed <==> SeenClaimed(o)
    ensures WedgeClass(e, o) == Dropped <==>
      !SeenClaimed(o) && exists post: Escrow :: FirstFound(o.post, post) && post.phase == Refunded
  {
    var pre, post := BoundedRead(o.pre).escrow, BoundedRead(o.post).escrow;
    if pre.Some? { BoundedReadIsFirst(o.pre, pre.value); }
    if post.Some? { BoundedReadIsFirst(o.post, post.value); }
    forall x: Escrow ensures FirstFound(o.pre, x) <==> pre == Some(x) { BoundedReadIsFirst(o.pre, x); }
    forall x: Escrow ensures FirstFound(o.post, x) <==> post == Some(x) { BoundedReadIsFirst(o.post, x); }
  }

  /** Quarantine is chosen exactly on a confirmed wedge; the terms of an escrow are
      the same whenever it is read. */
  lemma QuarantineIff(e: Escrow, o: Obs)
    requires forall x: Escrow :: FirstFound(o.pre, x) || FirstFound(o.post, x) ==> x.amount == e.amount
    ensures WedgeClass(e, o) == QuarantineIt <==> exists pre: Escrow, post: Escrow :: ConfirmedWedge(o, pre, post)
  {
    var pre, post := BoundedRead(o.pre).escrow, BoundedRead(o.post).escrow;
    forall x: Escrow ensures FirstFound(o.pre, x) <==> pre == Some(x) { BoundedReadIsFirst(o.pre, x); }
    forall x: Escrow ensures FirstFound(o.post, x) <==> post == Some(x) { BoundedReadIsFirst(o.post, x); }
    ShortIff(o.newBalance, e.amount);
    if pre.Some? && post.Some? && WedgeClass(e, o) == QuarantineIt {
      assert ConfirmedWedge(o, pre.value, post.value);
    }
  }

  /** A wedge candidate is quarantined exactly on a confirmed wedge, recovered exactly
      as a claimed escrow when a read shows the claim, and dropped on a refund. */
  lemma CandidateFirst(stage: SwapStage, parseable: bool, o: Obs, e: Escrow)
    requires FirstFound(o.first, e) && e.phase == Locked && o.nowCheck >= e.timelock && ReadsShort(o.balance, e.amount)
    requires forall x: Escrow :: FirstFound(o.pre, x) || FirstFound(o.post, x) ==> x.amount == e.amount
    requires forall x: Escrow :: (FirstFound(o.pre, x) || FirstFound(o.post, x)) && x.phase == Claimed ==> Revealed(x)
    ensures var v := PassVerdict(stage, parseable, o);
      && (v == WedgeQuarantine <==> exists pre: Escrow, post: Escrow :: ConfirmedWedge(o, pre, post))
      && (SeenClaimed(o) ==>
          if EthSettled(parseable, o.eth) then v == Drop(EthResolved(ClaimEth(parseable, o.eth))) else v == Keep)
      && (v == Drop(RefundObserved) <==>
          !SeenClaimed(o) && exists post: Escrow :: FirstFound(o.post, post) && post.phase == Refunded)
  {
    BoundedReadIsFirst(o.first, e);
    CandidateIff(e, o);
    ShortIff(o.balance, e.amount);
    QuarantineIff(e, o);
    WedgeClassIff(e, o);
    if WedgeClass(e, o) == RecoverClaimed {
      var c := ClaimedRead(e, o);
      BoundedReadIsFirst(o.pre, c);
      BoundedReadIsFirst(o.post, c);
      RecoverIff(parseable, c, o.eth);
    }
  }

  /** On the chains the terms of an escrow never change, and a claimed one carries its
      preimage, so the two conditions always hold. */
  lemma SecondReadsAgree(sha: Digest, hl: Bytes, h: seq<World>, ts: Times, o: Obs, e: Escrow, x: Escrow)
    requires History(sha, hl, h) && Consistent(h, ts, o) && FirstFound(o.first, e)
    requires FirstFound(o.pre, x) || FirstFound(o.post, x)
    ensures x.amount == e.amount && (x.phase == Claimed ==> Revealed(x))
  {
    BoundedReadIsFirst(o.first, e);
    var seen := FoundAt(h, ts.start, ts.check, o.first);
    var t: nat;
    if FirstFound(o.pre, x) {
      BoundedReadIsFirst(o.pre, x);
      t := FoundAt(h, ts.check, ts.mid, o.pre);
    } else {
      BoundedReadIsFirst(o.post, x);
      t := FoundAt(h, ts.late, ts.end, o.post);
    }
    HistoryEvolves(sha, hl, h, seen, t);
    HistoryValid(sha, hl, h, t);
  }

  /** So, on the chains, the fate of every wedge candidate is decided by what was read. */
  lemma CandidateOnChain(sha: Digest, hl: Bytes, h: seq<World>, ts: Times, stage: SwapStage, parseable: bool, o: Obs,
                         e: Escrow)
    requires History(sha, hl, h) && Consistent(h, ts, o)
    requires FirstFound(o.first, e) && e.phase == Locked && o.nowCheck >= e.timelock && ReadsShort(o.balance, e.amount)
    ensures var v := PassVerdict(stage, parseable, o);
      && (v == WedgeQuarantine <==> exists pre: Escrow, post: Escrow :: ConfirmedWedge(o, pre, post))
      && (SeenClaimed(o) ==>
          if EthSettled(parseable, o.eth) then v == Drop(EthResolved(ClaimEth(parseable, o.eth))) else v == Keep)
      && (v == Drop(RefundObserved) <==>
          !SeenClaimed(o) && exists post: Escrow :: FirstFound(o.post, post) && post.phase == Refunded)
  {
    forall x: Escrow | FirstFound(o.pre, x) || FirstFound(o.post, x)
      ensures x.amount == e.amount && (x.phase == Claimed ==> Revealed(x))
    {
      SecondReadsAgree(sha, hl, h, ts, o, e, x);
    }
    CandidateFirst(stage, parseable, o, e);
  }

  /** A watched swap leaves exactly on a usable claim with the ETH side settled, or on
      a refund, seen or confirmed. */
  lemma ResumeIff(parseable: bool, r: ResumeObs)
    requires r.TimedRefund? ==> r.turns(r.limit).late
    ensures var v := ResumeVerdict(parseable, r);
      && (v == Drop(RefundObserved) <==> r.SawRefund? || (r.TimedRefund? && ConfirmsBy(r.turns, RefundSeen)))
      && (Resolved(v) <==>
          && !r.SawRefund? && EthSettled(parseable, r.eth)
          && (if r.SawClaim? then |r.preimage| == 32 else SawClaimBy(r.turns)))
      && (v == Drop(RefundObserved) || Resolved(v) || v == Keep)
  {
    match r
    case SawClaim(_, eth) => ClaimEthIff(parseable, eth);
    case SawRefund =>
    case TimedRefund(turns, limit, eth) => RefundVerdictIff(parseable, turns, limit, eth);
  }

  /** Once the preimage is on the escrow, a pass that reads from then on either
      keeps the entry or has resolved the ETH side: it never quarantines, retires
      or drops it for a refund. `readFrom` is where the last state read began. */
  lemma RevealedEntryKept(sha: Digest, hl: Bytes, h: seq<World>, ts: Times, stage: SwapStage, parseable: bool, o: Obs)
    requires History(sha, hl, h) && Consistent(h, ts, o)
    requires var v := PassVerdict(stage, parseable, o);
      PhaseAt(h, if v == WedgeQuarantine then ts.late else ts.start, Claimed)
    ensures var v := PassVerdict(stage, parseable, o);
      v == Keep || (v.Drop? && v.why.EthResolved?)
  {
    var v := PassVerdict(stage, parseable, o);
    match v
    case Keep =>
    case Drop(why) =>
      NeverBadPreimage(sha, hl, h, ts, stage, parseable, o);
      if why == RefundObserved {
        RefundDropSound(sha, hl, h, ts, stage, parseable, o);
        var t :| ts.start <= t <= ts.end && PhaseAt(h, t, Refunded);
        OneTerminal(sha, hl, h, ts.start, t);
      }
    case WedgeQuarantine =>
      var to := FoundAt(h, ts.late, ts.end, o.post);
      OneTerminal(sha, hl, h, ts.late, to);
    case RetireUnlocked =>
      RetiresIff(stage, parseable, o);
      var t :| ts.start <= t <= ts.check && h[t].lez.escrow.None?;
      OneTerminal(sha, hl, h, ts.start, t);
    case ResumeLive =>
      var t := FoundAt(h, ts.start, ts.check, o.first);
      OneTerminal(sha, hl, h, ts.start, t);
  }

  /** A claim that lands before the final state read of the wedge check is never
      mistaken for a wedge, whenever it landed. */
  lemma ClaimBeforeFinalRead(sha: Digest, hl: Bytes, h: seq<World>, ts: Times, e: Escrow, o: Obs)
    requires History(sha, hl, h) && Consistent(h, ts, o) && PhaseAt(h, ts.late, Claimed)
    ensures WedgeClass(e, o) in {RecoverClaimed, Retain}
    ensures WedgeClass(e, o) == Retain <==>
      PhaseOf(BoundedRead(o.pre).escrow) != Some(Claimed) && BoundedRead(o.post).escrow.None?
  {
    if BoundedRead(o.post).escrow.Some? {
      var t := FoundAt(h, ts.late, ts.end, o.post);
      OneTerminal(sha, hl, h, ts.late, t);
    }
    if BoundedRead(o.pre).escrow.Some? {
      var t := FoundAt(h, ts.check, ts.mid, o.pre);
      OneTerminal(sha, hl, h, ts.late, t);
    }
  }
}
