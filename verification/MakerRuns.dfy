/** The maker over whole runs, for one swap: the two chains, the journal in memory
    and on disk, and the process that locks, funds, crashes, restarts, reconciles
    and resumes (src/cli/bot.rs, src/lez/client.rs, src/swap/maker.rs,
    src/cli/maker.rs). The chains, the faults of every journal write and every
    answer of both nodes are adversarial up to `Consistent`. */
module MakerRuns {
  import opened Common
  import opened Htlc
  import opened Reads
  import opened Journal
  import opened Reconcile

  /** One swap: its hash function and hashlock, its journal key, and whether its ETH
      swap id parses. */
  datatype Swap = Swap(sha: Digest, hl: Bytes, key: string, parseable: bool)

  /** How far the serving process is with this swap. */
  datatype Stage = Idle | Journaled | Checked | LockSent | LockSeen | FundSent | Watching

  datatype Proc = Down | Starting(since: nat) | Serving(stage: Stage)

  /** Why and from which reads the swap left the journal, and whether its funding
      transfer had been sent by then. */
  datatype Closure = Closure(verdict: Verdict, readFrom: nat, funded: bool)

  /** `past` is the history of the chains up to now; `owed` says that `record`
      succeeded and the entry was not handed back since; `terms` are those of the
      latest attempt to lock, and `fundings` counts transfers. */
  datatype Maker = Maker(past: seq<World>, store: Store, proc: Proc, owed: bool, lockSent: bool, fundSent: bool,
                         closure: Option<Closure>, terms: Terms, fundings: nat)
  {
    function Now(): World
      requires |past| > 0
    {
      past[|past| - 1]
    }
  }

  datatype Step =
    | ChainStep(a: Action)
    | Crash(lost: Option<BotState>)
    | Start
    | OtherSwap(op: Op)
    | Promote(fault: Fault)
    | PassEntry(ts: Times, stage: SwapStage, o: Obs, now: nat, fault: Fault)
    | ResumeEntry(lo: nat, r: ResumeObs, fault: Fault)
    | Serve
    | RecordSwap(entry: InFlightSwap, terms: Terms, fault: Fault)
    | CheckBeforeLock
    | SendLock
    | SeeLock(e: Escrow)
    | SendFunding
    | ConfirmFunding(fault: Fault)
    | EndWatch(lo: nat, r: ResumeObs, fault: Fault)

  /** A journal write on behalf of another swap. */
  predicate OtherKey(op: Op, key: string) {
    match op
    case DoRecord(swap, _) => swap.hashlock != key
    case DoMarkFunded(h, _) => h != key
    case DoRemove(h, _) => h != key
    case DoQuarantine(h, _, _, _) => h != key
    case Restart => false
    case PowerLoss(_) => false
  }

  /** What a resumed or watched swap saw, against the chains. */
  ghost predicate ResumeHonest(h: seq<World>, lo: nat, hi: nat, r: ResumeObs) {
    && lo <= hi < |h|
    && match r
       case SawClaim(_, eth) => EthHonest(h, lo, hi, eth) && exists t :: lo <= t <= hi && PhaseAt(h, t, Claimed)
       case SawRefund => exists t :: lo <= t <= hi && PhaseAt(h, t, Refunded)
       case TimedRefund(turns, _, eth) => TurnsDuring(h, lo, hi, turns) && EthHonest(h, lo, hi, eth)
  }

  ghost predicate Enabled(s: Swap, m: Maker, step: Step)
    requires |m.past| > 0
  {
    match step
    case ChainStep(_) => true
    case Crash(lost) => lost.Some? ==> lost.value in m.store.file.durable
    case Start => m.proc == Down
    case OtherSwap(op) => m.proc != Down && OtherKey(op, s.key)
    case Promote(_) => m.proc.Starting?
    case PassEntry(ts, stage, o, _, _) =>
      m.proc.Starting? && Has(m.store.mem, s.key) && m.proc.since <= ts.start && Consistent(m.past, ts, o)
    case ResumeEntry(lo, r, _) =>
      m.proc.Starting? && Has(m.store.mem, s.key) && m.proc.since <= lo && ResumeHonest(m.past, lo, |m.past| - 1, r)
    case Serve => m.proc.Starting? && !Has(m.store.mem, s.key)
    case RecordSwap(entry, terms, _) =>
      // The timelock to lock with was computed just now, ahead of the clock.
      && m.proc == Serving(Idle) && !Has(m.store.mem, s.key) && entry.hashlock == s.key
      && terms.timelock > m.Now().now
    case CheckBeforeLock => m.proc == Serving(Journaled)
    case SendLock => m.proc == Serving(Checked)
    case SeeLock(e) => m.proc == Serving(LockSent) && m.Now().lez.escrow == Some(e) && ConfirmsOurLock(e, m.terms)
    case SendFunding => m.proc == Serving(LockSeen)
    case ConfirmFunding(_) => m.proc == Serving(FundSent)
    case EndWatch(lo, r, _) => m.proc == Serving(Watching) && ResumeHonest(m.past, lo, |m.past| - 1, r)
  }

  /** The entry leaves the journal, or stays, as the verdict says. */
  function Close(s: Swap, m: Maker, v: Verdict, readFrom: nat, now: nat, fault: Fault): Maker {
    var store' := CarriedOut(m.store, s.key, v, now, fault);
    if v == Keep || v == ResumeLive then m.(store := store')
    else m.(store := store', owed := false, closure := Some(Closure(v, readFrom, m.fundSent)))
  }

  function ReadFrom(ts: Times, v: Verdict): nat { if v == WedgeQuarantine then ts.late else ts.start }

  function Do(s: Swap, m: Maker, step: Step): Maker
    requires |m.past| > 0
  {
    match step
    case ChainStep(a) => m.(past := m.past + [Next(s.sha, s.hl, m.Now(), a)])
    case Crash(lost) => m.(proc := Down, store := Apply(m.store, if lost.Some? then PowerLoss(lost.value) else Restart))
    case Start => m.(proc := Starting(|m.past| - 1))
    case OtherSwap(op) => m.(store := Apply(m.store, op))
    case Promote(fault) => m.(store := MarkedFunded(m.store, s.key, fault))
    case PassEntry(ts, stage, o, now, fault) =>
      var v := PassVerdict(stage, s.parseable, o);
      Close(s, m, v, ReadFrom(ts, v), now, fault)
    case ResumeEntry(lo, r, fault) => Close(s, m, ResumeVerdict(s.parseable, r), lo, 0, fault)
    case Serve => m.(proc := Serving(Idle))
    case RecordSwap(entry, terms, fault) =>
      var (store', ok) := Recorded(m.store, entry, fault);
      if ok
      then m.(store := store', proc := Serving(Journaled), owed := true, lockSent := false, closure := None,
              terms := terms)
      else m.(store := store')
    case CheckBeforeLock => m.(proc := Serving(Checked))
    case SendLock => m.(proc := Serving(LockSent), lockSent := true)
    case SeeLock(_) => m.(proc := Serving(LockSeen))
    case SendFunding => m.(proc := Serving(FundSent), fundSent := true, fundings := m.fundings + 1)
    case ConfirmFunding(fault) => m.(proc := Serving(Watching), store := MarkedFunded(m.store, s.key, fault))
    case EndWatch(lo, r, fault) =>
      var v := ResumeVerdict(s.parseable, r);
      Close(s, m, v, lo, 0, fault).(proc := if v == Keep then Serving(Watching) else Serving(Idle))
  }

  // ----- the journal keeps the key -----

  ghost predicate HasEverywhere(s: Store, key: string) {
    Has(s.mem, key) && forall c :: c in s.file.durable ==> Has(c, key)
  }

  lemma OtherSwapKeepsKey(st: Store, op: Op, key: string)
    requires HasEverywhere(st, key) && OtherKey(op, key)
    ensures HasEverywhere(Apply(st, op), key)
  {
    match op
    case DoRecord(swap, _) => HasAppended(st.mem, swap);
    case DoMarkFunded(h, _) => HasUpgraded(st.mem, h, key);
    case DoRemove(h, _) => HasWithout(st.mem, h, key);
    case DoQuarantine(h, _, _, _) => HasWithout(st.mem, h, key);
  }

  lemma MarkKeepsKey(st: Store, key: string, fault: Fault)
    requires HasEverywhere(st, key)
    ensures HasEverywhere(MarkedFunded(st, key, fault), key)
  {
    HasUpgraded(st.mem, key, key);
  }

  // ----- the invariant -----

  /** What the chains say about the reason an entry was let go. */
  ghost predicate Justified(s: Swap, past: seq<World>, c: Closure) {
    && c.readFrom < |past|
    && (PhaseAt(past, c.readFrom, Claimed) ==> c.verdict.Drop? && c.verdict.why.EthResolved?)
    && match c.verdict
       case Drop(EthResolved(outcome)) =>
         && (exists t :: c.readFrom <= t < |past| && PhaseAt(past, t, Claimed))
         && (s.parseable ==> exists t :: c.readFrom <= t < |past| && past[t].eth.phase != Open)
       case Drop(RefundObserved) => exists t :: c.readFrom <= t < |past| && PhaseAt(past, t, Refunded)
       case Drop(BadPreimage) => false
       case Drop(CorruptEntry) => false
       case WedgeQuarantine => exists low :: 0 <= low < |past| && Underfunded(past, low)
       case RetireUnlocked => !c.funded && exists t :: c.readFrom <= t < |past| && past[t].lez.escrow.None?
       case Keep => false
       case ResumeLive => false
  }

  /** At instant `low` the escrow was locked, past its timelock, and short of its amount. */
  predicate Underfunded(past: seq<World>, low: nat) {
    && PhaseAt(past, low, Locked)
    && past[low].now >= past[low].lez.escrow.value.timelock
    && past[low].lez.balance < past[low].lez.escrow.value.amount
  }

  ghost predicate Inv(s: Swap, m: Maker) {
    && History(s.sha, s.hl, m.past)
    && m.store.file.visible in m.store.file.durable
    && (m.owed ==> HasEverywhere(m.store, s.key))
    && (m.proc.Serving? && m.proc.stage != Idle ==> m.owed)
    && (m.lockSent || m.fundSent ==> m.owed || m.closure.Some?)
    && (m.fundSent || m.proc == Serving(LockSeen) ==> m.Now().lez.escrow.Some?)
    && (m.proc.Starting? ==> m.proc.since < |m.past| && (m.fundSent ==> m.past[m.proc.since].lez.escrow.Some?))
    && (m.closure.Some? ==> Justified(s, m.past, m.closure.value))
  }

  lemma HistoryGrows(s: Swap, past: seq<World>, a: Action)
    requires History(s.sha, s.hl, past)
    ensures History(s.sha, s.hl, past + [Next(s.sha, s.hl, past[|past| - 1], a)])
  {
    var w := past[|past| - 1];
    assert StepTo(s.sha, s.hl, w, Next(s.sha, s.hl, w, a));
  }

  lemma JustifiedGrows(s: Swap, past: seq<World>, w: World, c: Closure)
    requires Justified(s, past, c)
    ensures Justified(s, past + [w], c)
  {
    var past' := past + [w];
    match c.verdict
    case Drop(EthResolved(outcome)) =>
      var u :| c.readFrom <= u < |past| && PhaseAt(past, u, Claimed);
      assert PhaseAt(past', u, Claimed);
      if s.parseable {
        var t :| c.readFrom <= t < |past| && past[t].eth.phase != Open;
        assert past'[t].eth.phase != Open;
      }
    case Drop(RefundObserved) =>
      var t :| c.readFrom <= t < |past| && PhaseAt(past, t, Refunded);
      assert PhaseAt(past', t, Refunded);
    case WedgeQuarantine =>
      var low :| 0 <= low < |past| && Underfunded(past, low);
      assert Underfunded(past', low);
    case RetireUnlocked =>
      var t :| c.readFrom <= t < |past| && past[t].lez.escrow.None?;
      assert past'[t].lez.escrow.None?;
    case _ =>
  }

  lemma ChainStepKeeps(s: Swap, m: Maker, a: Action)
    requires Inv(s, m)
    ensures Inv(s, Do(s, m, ChainStep(a)))
  {
    HistoryGrows(s, m.past, a);
    var w := Next(s.sha, s.hl, m.Now(), a);
    HistoryEvolves(s.sha, s.hl, m.past + [w], |m.past| - 1, |m.past|);
    if m.closure.Some? { JustifiedGrows(s, m.past, w, m.closure.value); }
  }

  lemma CrashKeeps(s: Swap, m: Maker, lost: Option<BotState>)
    requires Inv(s, m) && (lost.Some? ==> lost.value in m.store.file.durable)
    ensures Inv(s, Do(s, m, Crash(lost)))
  {
  }

  /** A pass over the entry closes it only for a reason the chains confirm. */
  lemma PassJustified(s: Swap, m: Maker, ts: Times, stage: SwapStage, o: Obs)
    requires Inv(s, m) && m.proc.Starting? && m.proc.since <= ts.start && Consistent(m.past, ts, o)
    requires var v := PassVerdict(stage, s.parseable, o); v != Keep && v != ResumeLive
    ensures var v := PassVerdict(stage, s.parseable, o);
      Justified(s, m.past, Closure(v, ReadFrom(ts, v), m.fundSent))
  {
    var v := PassVerdict(stage, s.parseable, o);
    if PhaseAt(m.past, ReadFrom(ts, v), Claimed) {
      RevealedEntryKept(s.sha, s.hl, m.past, ts, stage, s.parseable, o);
    }
    NeverBadPreimage(s.sha, s.hl, m.past, ts, stage, s.parseable, o);
    match v
    case Drop(EthResolved(outcome)) =>
      EthDropSound(s.sha, s.hl, m.past, ts, stage, s.parseable, o);
      if s.parseable {
        assert outcome == ClaimEth(true, o.eth);
        EthResolvedSound(m.past, ts.start, ts.end, o.eth);
      }
    case Drop(RefundObserved) => RefundDropSound(s.sha, s.hl, m.past, ts, stage, s.parseable, o);
    case WedgeQuarantine =>
      var _, low, _ := WedgeQuarantineSound(s.sha, s.hl, m.past, ts, stage, s.parseable, o);
      assert Underfunded(m.past, low);
    case RetireUnlocked =>
      RetiresIff(stage, s.parseable, o);
      var t :| ts.start <= t <= ts.check && m.past[t].lez.escrow.None?;
      HistoryEvolves(s.sha, s.hl, m.past, m.proc.since, t);
    case _ =>
  }

  lemma ResumeJustified(s: Swap, past: seq<World>, lo: nat, r: ResumeObs, funded: bool)
    requires History(s.sha, s.hl, past) && ResumeHonest(past, lo, |past| - 1, r)
    requires ResumeVerdict(s.parseable, r) != Keep
    ensures Justified(s, past, Closure(ResumeVerdict(s.parseable, r), lo, funded))
  {
    var v := ResumeVerdict(s.parseable, r);
    if v == Drop(RefundObserved) {
      var t: nat;
      if r.TimedRefund? {
        RefundFromMeaning(r.turns, r.limit, 0, 0);
        var last := RefundFrom(r.turns, r.limit, 0, 0).1;
        t :| lo <= t <= |past| - 1 && past[t].lez.escrow == Some(r.turns(last).read.escrow);
      } else {
        t :| lo <= t <= |past| - 1 && PhaseAt(past, t, Refunded);
      }
      assert PhaseAt(past, t, Refunded);
      if PhaseAt(past, lo, Claimed) { OneTerminal(s.sha, s.hl, past, lo, t); }
    } else {
      var t: nat;
      if r.TimedRefund? {
        RefundFromMeaning(r.turns, r.limit, 0, 0);
        var last := RefundFrom(r.turns, r.limit, 0, 0).1;
        t :| lo <= t <= |past| - 1 && past[t].lez.escrow == Some(r.turns(last).read.escrow);
      } else {
        t :| lo <= t <= |past| - 1 && PhaseAt(past, t, Claimed);
      }
      assert PhaseAt(past, t, Claimed);
      if s.parseable { EthResolvedSound(past, lo, |past| - 1, r.eth); }
    }
  }

  lemma VisibleStays(st: Store, key: string, v: Verdict, now: nat, fault: Fault)
    requires st.file.visible in st.file.durable
    ensures var st' := CarriedOut(st, key, v, now, fault); st'.file.visible in st'.file.durable
  {
  }

  lemma CloseKeeps(s: Swap, m: Maker, v: Verdict, readFrom: nat, now: nat, fault: Fault)
    requires Inv(s, m)
    requires v == Keep || v == ResumeLive || Justified(s, m.past, Closure(v, readFrom, m.fundSent))
    ensures var m' := Close(s, m, v, readFrom, now, fault);
      && (m.proc.Starting? ==> Inv(s, m'))
      && (m.proc == Serving(Watching) ==>
          Inv(s, m'.(proc := if v == Keep || v == ResumeLive then Serving(Watching) else Serving(Idle))))
  {
    VisibleStays(m.store, s.key, v, now, fault);
  }

  lemma PassKeeps(s: Swap, m: Maker, ts: Times, stage: SwapStage, o: Obs, now: nat, fault: Fault)
    requires Inv(s, m) && Enabled(s, m, PassEntry(ts, stage, o, now, fault))
    ensures Inv(s, Do(s, m, PassEntry(ts, stage, o, now, fault)))
  {
    var v := PassVerdict(stage, s.parseable, o);
    if v != Keep && v != ResumeLive { PassJustified(s, m, ts, stage, o); }
    CloseKeeps(s, m, v, ReadFrom(ts, v), now, fault);
  }

  lemma ResumeKeeps(s: Swap, m: Maker, lo: nat, r: ResumeObs, fault: Fault)
    requires Inv(s, m) && Enabled(s, m, ResumeEntry(lo, r, fault))
    ensures Inv(s, Do(s, m, ResumeEntry(lo, r, fault)))
  {
    var v := ResumeVerdict(s.parseable, r);
    if v != Keep { ResumeJustified(s, m.past, lo, r, m.fundSent); }
    CloseKeeps(s, m, v, lo, 0, fault);
  }

  lemma WatchKeeps(s: Swap, m: Maker, lo: nat, r: ResumeObs, fault: Fault)
    requires Inv(s, m) && Enabled(s, m, EndWatch(lo, r, fault))
    ensures Inv(s, Do(s, m, EndWatch(lo, r, fault)))
  {
    var v := ResumeVerdict(s.parseable, r);
    if v != Keep { ResumeJustified(s, m.past, lo, r, m.fundSent); }
    CloseKeeps(s, m, v, lo, 0, fault);
  }

  lemma RecordSwapKeeps(s: Swap, m: Maker, entry: InFlightSwap, terms: Terms, fault: Fault)
    requires Inv(s, m) && Enabled(s, m, RecordSwap(entry, terms, fault))
    ensures Inv(s, Do(s, m, RecordSwap(entry, terms, fault)))
  {
    assert entry in m.store.mem.inFlight + [entry];
  }

  lemma JournalStepKeeps(s: Swap, m: Maker, step: Step)
    requires Inv(s, m) && Enabled(s, m, step) && (step.OtherSwap? || step.Promote? || step.ConfirmFunding?)
    ensures Inv(s, Do(s, m, step))
  {
    if m.owed {
      match step
      case OtherSwap(op) => OtherSwapKeepsKey(m.store, op, s.key);
      case Promote(fault) => MarkKeepsKey(m.store, s.key, fault);
      case ConfirmFunding(fault) => MarkKeepsKey(m.store, s.key, fault);
    }
  }

  lemma ProcStepKeeps(s: Swap, m: Maker, step: Step)
    requires Inv(s, m) && Enabled(s, m, step)
    requires step.Start? || step.Serve? || step.CheckBeforeLock? || step.SendLock? || step.SeeLock? || step.SendFunding?
    ensures Inv(s, Do(s, m, step))
  {
  }

  /** Every step of the world, of the process and of its failures keeps the invariant. */
  lemma StepKeeps(s: Swap, m: Maker, step: Step)
    requires Inv(s, m) && Enabled(s, m, step)
    ensures Inv(s, Do(s, m, step))
  {
    match step
    case ChainStep(a) => ChainStepKeeps(s, m, a);
    case Crash(lost) => CrashKeeps(s, m, lost);
    case PassEntry(ts, stage, o, now, fault) => PassKeeps(s, m, ts, stage, o, now, fault);
    case ResumeEntry(lo, r, fault) => ResumeKeeps(s, m, lo, r, fault);
    case EndWatch(lo, r, fault) => WatchKeeps(s, m, lo, r, fault);
    case RecordSwap(entry, terms, fault) => RecordSwapKeeps(s, m, entry, terms, fault);
    case OtherSwap(_) => JournalStepKeeps(s, m, step);
    case Promote(_) => JournalStepKeeps(s, m, step);
    case ConfirmFunding(_) => JournalStepKeeps(s, m, step);
    case _ => ProcStepKeeps(s, m, step);
  }

  // ----- runs -----

  ghost predicate Run(s: Swap, m: Maker, steps: seq<Step>)
    requires |m.past| > 0
    decreases steps
  {
    steps == [] || (Enabled(s, m, steps[0]) && Run(s, Do(s, m, steps[0]), steps[1..]))
  }

  function After(s: Swap, m: Maker, steps: seq<Step>): (r: Maker)
    requires |m.past| > 0
    ensures |r.past| > 0
    decreases steps
  {
    if steps == [] then m else After(s, Do(s, m, steps[0]), steps[1..])
  }

  lemma {:induction false} RunKeeps(s: Swap, m: Maker, steps: seq<Step>)
    requires Inv(s, m) && Run(s, m, steps)
    ensures Inv(s, After(s, m, steps))
    decreases steps
  {
    if steps != [] {
      StepKeeps(s, m, steps[0]);
      RunKeeps(s, Do(s, m, steps[0]), steps[1..]);
    }
  }

  const NO_TERMS: Terms := Terms(0, 0, 0, 0)

  function Init(w: World): Maker { Maker([w], FRESH, Down, false, false, false, None, NO_TERMS, 0) }

  /** Over every run from a fresh deployment: once the lock or the funding transfer
      of a swap was sent, its hashlock is in memory and in every content a crash
      can leave on disk, until it is let go for a reason the chains confirm. */
  lemma NoSwapForgotten(s: Swap, w: World, steps: seq<Step>)
    requires ValidWorld(s.sha, s.hl, w) && Run(s, Init(w), steps)
    ensures var m := After(s, Init(w), steps);
      m.lockSent || m.fundSent ==>
        HasEverywhere(m.store, s.key) || (m.closure.Some? && Justified(s, m.past, m.closure.value))
  {
    RunKeeps(s, Init(w), steps);
  }

  /** An entry retired as never locked had no funding sent, ever before. */
  lemma RetiredMeansUnfunded(s: Swap, w: World, steps: seq<Step>)
    requires ValidWorld(s.sha, s.hl, w) && Run(s, Init(w), steps)
    ensures var m := After(s, Init(w), steps);
      m.closure.Some? && m.closure.value.verdict == RetireUnlocked ==> !m.closure.value.funded
  {
    RunKeeps(s, Init(w), steps);
  }

  /** A swap whose preimage was on the escrow when the deciding reads began is let
      go only once the ETH side was seen settled. */
  lemma RevealedSwapResolved(s: Swap, w: World, steps: seq<Step>)
    requires ValidWorld(s.sha, s.hl, w) && Run(s, Init(w), steps) && s.parseable
    ensures var m := After(s, Init(w), steps);
      m.closure.Some? && PhaseAt(m.past, m.closure.value.readFrom, Claimed) ==>
        exists t :: m.closure.value.readFrom <= t < |m.past| && m.past[t].eth.phase != Open
  {
    RunKeeps(s, Init(w), steps);
  }

  // ----- one funding per hashlock -----

  /** Whatever escrow there is can no longer be taken for the one a lock with a
      timelock of `limit` or later creates. */
  predicate Outdated(w: World, limit: nat) {
    w.lez.escrow.Some? && w.lez.escrow.value.phase == Locked ==> w.lez.escrow.value.timelock < limit
  }

  /** A paid-for swap that was let go has an escrow that is settled or past its
      timelock, a later attempt locks on a later timelock, and no attempt that has
      seen its own lock finds the swap already paid for. */
  predicate FundsOnce(m: Maker)
    requires |m.past| > 0
  {
    && m.fundings == (if m.fundSent then 1 else 0)
    && (m.fundSent && !m.owed ==> Outdated(m.Now(), m.Now().now + 1))
    && (m.fundSent && m.proc.Serving? && m.proc.stage in {Journaled, Checked, LockSent} ==>
        Outdated(m.Now(), m.terms.timelock))
    && (m.proc == Serving(LockSeen) ==> !m.fundSent)
  }

  lemma OutdatedGrows(a: World, b: World, limit: nat, limit': nat)
    requires Evolves(a, b) && a.lez.escrow.Some? && Outdated(a, limit) && limit <= limit'
    ensures Outdated(b, limit')
  {
  }

  /** Every reason to let a paid-for swap go leaves its escrow settled or expired. */
  lemma JustifiedIsOutdated(s: Swap, past: seq<World>, c: Closure)
    requires History(s.sha, s.hl, past) && Justified(s, past, c) && c.funded
    ensures var w := past[|past| - 1]; Outdated(w, w.now + 1)
  {
    var n := |past| - 1;
    match c.verdict
    case Drop(EthResolved(outcome)) =>
      var t :| c.readFrom <= t < |past| && PhaseAt(past, t, Claimed);
      TerminalIsFinal(s.sha, s.hl, past, t, n);
    case Drop(RefundObserved) =>
      var t :| c.readFrom <= t < |past| && PhaseAt(past, t, Refunded);
      TerminalIsFinal(s.sha, s.hl, past, t, n);
    case WedgeQuarantine =>
      var low :| 0 <= low < |past| && Underfunded(past, low);
      HistoryEvolves(s.sha, s.hl, past, low, n);
    case _ =>
  }

  lemma CloseFundsOnce(s: Swap, m: Maker, v: Verdict, readFrom: nat, now: nat, fault: Fault)
    requires Inv(s, m) && FundsOnce(m) && (m.proc.Starting? || m.proc == Serving(Watching))
    requires v == Keep || v == ResumeLive || Justified(s, m.past, Closure(v, readFrom, m.fundSent))
    ensures FundsOnce(Close(s, m, v, readFrom, now, fault))
  {
    if v != Keep && v != ResumeLive && m.fundSent {
      JustifiedIsOutdated(s, m.past, Closure(v, readFrom, m.fundSent));
    }
  }

  lemma PassFundsOnce(s: Swap, m: Maker, ts: Times, stage: SwapStage, o: Obs, now: nat, fault: Fault)
    requires Inv(s, m) && FundsOnce(m) && Enabled(s, m, PassEntry(ts, stage, o, now, fault))
    ensures FundsOnce(Do(s, m, PassEntry(ts, stage, o, now, fault)))
  {
    var v := PassVerdict(stage, s.parseable, o);
    if v != Keep && v != ResumeLive { PassJustified(s, m, ts, stage, o); }
    CloseFundsOnce(s, m, v, ReadFrom(ts, v), now, fault);
  }

  /** The same for a resumed and for a watched swap. */
  lemma WatchFundsOnce(s: Swap, m: Maker, lo: nat, r: ResumeObs, fault: Fault)
    requires Inv(s, m) && FundsOnce(m) && (m.proc.Starting? || m.proc == Serving(Watching))
    requires ResumeHonest(m.past, lo, |m.past| - 1, r)
    ensures FundsOnce(Close(s, m, ResumeVerdict(s.parseable, r), lo, 0, fault))
  {
    var v := ResumeVerdict(s.parseable, r);
    if v != Keep { ResumeJustified(s, m.past, lo, r, m.fundSent); }
    CloseFundsOnce(s, m, v, lo, 0, fault);
  }

  lemma ChainStepFundsOnce(s: Swap, m: Maker, a: Action)
    requires Inv(s, m) && FundsOnce(m)
    ensures FundsOnce(Do(s, m, ChainStep(a)))
  {
    HistoryValid(s.sha, s.hl, m.past, |m.past| - 1);
    var w, w' := m.Now(), Next(s.sha, s.hl, m.Now(), a);
    StepEvolves(s.sha, s.hl, w, a);
    if m.fundSent && !m.owed { OutdatedGrows(w, w', w.now + 1, w'.now + 1); }
    if m.fundSent && Outdated(w, m.terms.timelock) { OutdatedGrows(w, w', m.terms.timelock, m.terms.timelock); }
  }

  /** Every step keeps it, whatever the check before a lock reads: an attempt that
      follows a transfer has a later timelock than the escrow it would find. */
  lemma FundsOnceStep(s: Swap, m: Maker, step: Step)
    requires Inv(s, m) && FundsOnce(m) && Enabled(s, m, step)
    ensures FundsOnce(Do(s, m, step))
  {
    match step
    case ChainStep(a) => ChainStepFundsOnce(s, m, a);
    case PassEntry(ts, stage, o, now, fault) => PassFundsOnce(s, m, ts, stage, o, now, fault);
    case ResumeEntry(lo, r, fault) => WatchFundsOnce(s, m, lo, r, fault);
    case EndWatch(lo, r, fault) => WatchFundsOnce(s, m, lo, r, fault);
    case _ =>
  }

  lemma {:induction false} RunFundsOnce(s: Swap, m: Maker, steps: seq<Step>)
    requires Inv(s, m) && FundsOnce(m) && Run(s, m, steps)
    ensures FundsOnce(After(s, m, steps))
    decreases steps
  {
    if steps != [] {
      StepKeeps(s, m, steps[0]);
      FundsOnceStep(s, m, steps[0]);
      RunFundsOnce(s, Do(s, m, steps[0]), steps[1..]);
    }
  }

  /** Over every run, with crashes, restarts and phantom absences, at most one funding
      transfer is sent per hashlock. */
  lemma AtMostOneFunding(s: Swap, w: World, steps: seq<Step>)
    requires ValidWorld(s.sha, s.hl, w) && Run(s, Init(w), steps)
    ensures After(s, Init(w), steps).fundings <= 1
  {
    RunFundsOnce(s, Init(w), steps);
  }

  // ----- what the funding pays for -----

  predicate OnTerms(e: Escrow, t: Terms) {
    e.makerId == t.maker && e.takerId == t.taker && e.amount == t.amount && e.timelock == t.timelock
  }

  /** The lock that was seen is on chain, on the terms of the current attempt. */
  predicate SeenIsOurs(m: Maker)
    requires |m.past| > 0
  {
    m.proc == Serving(LockSeen) ==> m.Now().lez.escrow.Some? && OnTerms(m.Now().lez.escrow.value, m.terms)
  }

  lemma SeenIsOursStep(s: Swap, m: Maker, step: Step)
    requires Inv(s, m) && SeenIsOurs(m) && Enabled(s, m, step)
    ensures SeenIsOurs(Do(s, m, step))
  {
    if step.ChainStep? {
      HistoryValid(s.sha, s.hl, m.past, |m.past| - 1);
      StepEvolves(s.sha, s.hl, m.Now(), step.a);
    }
  }

  lemma {:induction false} RunSeenIsOurs(s: Swap, m: Maker, steps: seq<Step>)
    requires Inv(s, m) && SeenIsOurs(m) && Run(s, m, steps)
    ensures SeenIsOurs(After(s, m, steps))
    decreases steps
  {
    if steps != [] {
      StepKeeps(s, m, steps[0]);
      SeenIsOursStep(s, m, steps[0]);
      RunSeenIsOurs(s, Do(s, m, steps[0]), steps[1..]);
    }
  }

  /** In every later world only the taker of these terms can claim the escrow, with a
      preimage of the hashlock; and the maker, and nobody else, can refund it, from the
      timelock on, as long as it is locked and funded. */
  ghost predicate PaysOnTerms(s: Swap, t: Terms, w: World) {
    && (forall signer, p :: ExecuteClaim(s.sha, w.lez, signer, p).Some? ==> signer == t.taker && s.sha(p) == s.hl)
    && (forall signer :: ExecuteRefund(w.lez, signer, w.now).Some? <==>
          && signer == t.maker && w.now >= t.timelock
          && w.lez.escrow.Some? && w.lez.escrow.value.phase == Locked && w.lez.balance >= t.amount)
  }

  /** Over every run, a funding transfer goes to an escrow on the terms of the attempt
      that sends it, whatever its check and its polls read. */
  lemma FundingIsOnOurTerms(s: Swap, w: World, steps: seq<Step>, later: World)
    requires ValidWorld(s.sha, s.hl, w) && Run(s, Init(w), steps) && Enabled(s, After(s, Init(w), steps), SendFunding)
    requires Evolves(After(s, Init(w), steps).Now(), later) && ValidWorld(s.sha, s.hl, later)
    ensures var m := After(s, Init(w), steps);
      && m.Now().lez.escrow.Some? && OnTerms(m.Now().lez.escrow.value, m.terms)
      && PaysOnTerms(s, m.terms, later)
  {
    RunKeeps(s, Init(w), steps);
    RunSeenIsOurs(s, Init(w), steps);
  }
}
