/** The taker side of the swap (src/swap/taker.rs): `run_taker` as a method over
    what it observes, and as one participant among arbitrary others, whose every
    step may be interleaved with anything the maker, the scheduler and the two
    contracts do. */
module Taker {
  import opened Common
  import opened Htlc
  import opened Reads

  const LEZ_CLAIM_MARGIN_SECS: nat := 300
  const U64_MAX: nat := 0xFFFF_FFFF_FFFF_FFFF

  function SatAdd(a: nat, b: nat): nat { Min(a + b, U64_MAX) }

  datatype BindingError = WrongTaker | WrongHashlock | TimelockTooShort | TimelockNotBeforeEth

  /** `verify_escrow_binding`. */
  function VerifyBinding(e: Escrow, me: Account, hl: Bytes, ethTimelock: nat, now: nat): Option<BindingError> {
    if e.takerId != me then Some(WrongTaker)
    else if e.hashlock != hl then Some(WrongHashlock)
    else if e.timelock / 1000 < SatAdd(now, LEZ_CLAIM_MARGIN_SECS) then Some(TimelockTooShort)
    else if e.timelock / 1000 >= ethTimelock then Some(TimelockNotBeforeEth)
    else None
  }

  /** The taker's configuration and secret. The LEZ timelock is a u64 on the wire. */
  datatype Taker = Taker(sha: Digest, preimage: Bytes, me: Account, lezAmount: nat, ethTimelock: nat) {
    function Hashlock(): Bytes { sha(preimage) }
  }

  datatype Event = LockedEvent | RefundedEvent | ClaimedEvent | EthTimeout

  datatype Outcome = Completed | AbortedRefund | Failed

  predicate EscrowAcceptable(t: Taker, e: Escrow) { e.phase == Locked && e.amount >= t.lezAmount }

  predicate OnlyClaimsBefore(events: nat -> Event, k: nat) { forall j: nat :: j < k ==> events(j) == ClaimedEvent }

  /** `run_taker`: `events` is what the select loop receives (it ends by turn
      `limit`, when the ETH timelock fires at the latest). `revealed` says that
      the preimage left the process. */
  method RunTaker(t: Taker, ethLockOk: bool, watcherOk: bool, events: nat -> Event, limit: nat, read: EscrowRead,
                  balance: Option<nat>, nowSecs: nat, claimOk: bool)
    returns (outcome: Outcome, revealed: bool)
    requires events(limit) == EthTimeout
    ensures revealed <==>
      && ethLockOk && watcherOk
      && (exists k :: 0 <= k < limit && events(k) == LockedEvent && OnlyClaimsBefore(events, k))
      && read.ReadFound? && EscrowAcceptable(t, read.escrow)
      && balance.Some? && balance.value >= t.lezAmount
      && VerifyBinding(read.escrow, t.me, t.Hashlock(), t.ethTimelock, nowSecs).None?
    ensures outcome == Completed <==> revealed && claimOk
    ensures outcome == AbortedRefund <==>
      && ethLockOk && watcherOk
      && exists k :: 0 <= k <= limit && events(k) in {RefundedEvent, EthTimeout} && OnlyClaimsBefore(events, k)
  {
    if !ethLockOk || !watcherOk {
      return Failed, false;
    }
    var k := 0;
    while events(k) == ClaimedEvent
      invariant k <= limit
      invariant OnlyClaimsBefore(events, k)
      decreases limit - k
    {
      k := k + 1;
    }
    if events(k) == RefundedEvent || events(k) == EthTimeout {
      return AbortedRefund, false;
    }
    assert events(k) == LockedEvent;
    if !read.ReadFound? || read.escrow.phase != Locked || read.escrow.amount < t.lezAmount {
      return Failed, false;
    }
    if balance.None? || balance.value < t.lezAmount {
      return Failed, false;
    }
    if VerifyBinding(read.escrow, t.me, t.Hashlock(), t.ethTimelock, nowSecs).Some? {
      return Failed, false;
    }
    if claimOk {
      return Completed, true;
    }
    return Failed, true;
  }

  // ----- the protocol against an arbitrary environment -----

  datatype Pc =
    | Begin
    | Waiting
    | Verifying
    | HaveEscrow(e: Escrow)
    | HaveBalance(e: Escrow)
    | Cleared(e: Escrow, at: nat)
    | Claiming(e: Escrow, at: nat)
    | Exited(outcome: Outcome)

  /** `got` is the LEZ the taker has received from the escrow. */
  datatype State = State(w: World, pc: Pc, revealed: bool, got: nat, terms: Option<(Escrow, nat)>)

  datatype Step =
    | Environment(a: Action)
    | LockEth(landed: bool, reported: bool)
    | WatcherFails
    | Receive(ev: Event)
    | ReadEscrow(r: EscrowRead)
    | ReadBalance(b: Option<nat>)
    | Verify
    | Reveal
    | ClaimReturns(ok: bool)

  /** Nobody but the taker signs for the taker's account, and nobody knows the
      preimage before it is revealed. */
  predicate MayHappen(t: Taker, s: State, a: Action) {
    match a
    case LezClaim(signer, p) => s.revealed || (signer != t.me && t.sha(p) != t.Hashlock())
    case EthClaim(p) => s.revealed || t.sha(p) != t.Hashlock()
    case EthLock(_) => false
    case _ => true
  }

  /** Reads that return a value return the current one; they may fail or be absent. */
  predicate Enabled(t: Taker, s: State, step: Step) {
    match step
    case Environment(a) => MayHappen(t, s, a)
    case LockEth(landed, reported) => s.pc == Begin && (reported ==> landed)
    case WatcherFails => s.pc == Waiting
    case Receive(_) => s.pc == Waiting
    case ReadEscrow(r) => s.pc == Verifying && (r.ReadFound? ==> s.w.lez.escrow == Some(r.escrow))
    case ReadBalance(b) => s.pc.HaveEscrow? && (b.Some? ==> b.value == s.w.lez.balance)
    case Verify => s.pc.HaveBalance?
    case Reveal => s.pc.Cleared?
    case ClaimReturns(_) => s.pc.Claiming?
  }

  function Gain(t: Taker, w: World, a: Action): nat {
    if a.LezClaim? && a.signer == t.me && ExecuteClaim(t.sha, w.lez, a.signer, a.preimage).Some?
    then w.lez.escrow.value.amount else 0
  }

  function Do(t: Taker, s: State, step: Step): State
    requires Enabled(t, s, step)
  {
    match step
    case Environment(a) => s.(w := Next(t.sha, t.Hashlock(), s.w, a), got := s.got + Gain(t, s.w, a))
    case LockEth(landed, reported) =>
      // A lock can land although its receipt is lost.
      s.(w := if landed then Next(t.sha, t.Hashlock(), s.w, EthLock(t.ethTimelock)) else s.w,
         pc := if reported then Waiting else Exited(Failed))
    case WatcherFails => s.(pc := Exited(Failed))
    case Receive(ev) =>
      (match ev
       case LockedEvent => s.(pc := Verifying)
       case ClaimedEvent => s
       case RefundedEvent => s.(pc := Exited(AbortedRefund))
       case EthTimeout => s.(pc := Exited(AbortedRefund)))
    case ReadEscrow(r) =>
      if r.ReadFound? && EscrowAcceptable(t, r.escrow) then s.(pc := HaveEscrow(r.escrow)) else s.(pc := Exited(Failed))
    case ReadBalance(b) =>
      if b.Some? && b.value >= t.lezAmount then s.(pc := HaveBalance(s.pc.e)) else s.(pc := Exited(Failed))
    case Verify =>
      var now := s.w.now / 1000;
      if VerifyBinding(s.pc.e, t.me, t.Hashlock(), t.ethTimelock, now).None?
      then s.(pc := Cleared(s.pc.e, now), terms := Some((s.pc.e, now))) else s.(pc := Exited(Failed))
    case Reveal => s.(pc := Claiming(s.pc.e, s.pc.at), revealed := true)
    case ClaimReturns(ok) => s.(pc := Exited(if ok then Completed else Failed))
  }

  /** The escrow the taker read is still the one on chain, at most moved on; before
      the reveal it can only have been refunded, and only past its timelock. */
  predicate StillOurs(s: State, e: Escrow) {
    && e.phase == Locked
    && s.w.lez.escrow.Some?
    && var c := s.w.lez.escrow.value;
       && c.hashlock == e.hashlock && c.makerId == e.makerId && c.takerId == e.takerId
       && c.amount == e.amount && c.timelock == e.timelock
       && (c.phase == Refunded ==> s.w.now >= e.timelock)
       && (c.phase == Claimed ==> s.revealed)
  }

  /** What `Verify` established about the escrow it cleared at second `at`. */
  predicate Bound(t: Taker, e: Escrow, at: nat) {
    && e.hashlock == t.Hashlock() && e.takerId == t.me && e.amount >= t.lezAmount
    && e.timelock >= (at + LEZ_CLAIM_MARGIN_SECS) * 1000
    && e.timelock < t.ethTimelock * 1000
  }

  /** On chain: claimable by the taker alone, holding the agreed amount, or already paid out to it. */
  predicate Secured(t: Taker, s: State, e: Escrow) {
    && StillOurs(s, e)
    && (s.w.lez.escrow.value.phase == Locked ==> s.w.lez.balance >= t.lezAmount)
    && (s.w.lez.escrow.value.phase == Claimed ==> s.got >= t.lezAmount)
  }

  predicate Inv(t: Taker, s: State) {
    && ValidWorld(t.sha, t.Hashlock(), s.w)
    && (!s.revealed ==>
        s.got == 0 && s.w.eth.phase != EthClaimed && (s.w.lez.escrow.Some? ==> s.w.lez.escrow.value.phase != Claimed))
    && (s.revealed ==> s.terms.Some?)
    && (s.w.eth.phase != Empty ==> s.w.eth.hashlock == t.Hashlock())
    && (s.pc == Exited(AbortedRefund) ==> !s.revealed)
    && (s.pc == Exited(Completed) ==> s.revealed)
    && (s.pc.HaveEscrow? ==> StillOurs(s, s.pc.e) && s.pc.e.amount >= t.lezAmount && !s.revealed)
    && (s.pc.HaveBalance? ==> Secured(t, s, s.pc.e) && s.pc.e.amount >= t.lezAmount && !s.revealed)
    && (s.pc.Begin? || s.pc.Waiting? || s.pc.Verifying? ==> !s.revealed)
    && (s.pc.Cleared? ==> !s.revealed && s.terms == Some((s.pc.e, s.pc.at)))
    && (s.pc.Claiming? ==> s.revealed && s.terms == Some((s.pc.e, s.pc.at)))
    && (s.terms.Some? ==>
          Bound(t, s.terms.value.0, s.terms.value.1) && Secured(t, s, s.terms.value.0)
            && s.terms.value.1 * 1000 <= s.w.now)
  }

  /** Any permitted step of the others keeps the taker's escrow claimable by the
      taker alone. */
  lemma EnvironmentSecures(t: Taker, s: State, a: Action, e: Escrow)
    requires ValidWorld(t.sha, t.Hashlock(), s.w) && MayHappen(t, s, a)
    ensures var s' := Do(t, s, Environment(a));
      && (StillOurs(s, e) ==> StillOurs(s', e))
      && (Secured(t, s, e) && e.takerId == t.me && e.amount >= t.lezAmount ==> Secured(t, s', e))
      && (Secured(t, s, e) && !s.revealed ==> Secured(t, s', e))
  {
  }

  lemma EnvironmentKeeps(t: Taker, s: State, a: Action)
    requires Inv(t, s) && MayHappen(t, s, a)
    ensures Inv(t, Do(t, s, Environment(a)))
  {
    StepEvolves(t.sha, t.Hashlock(), s.w, a);
    if s.pc.HaveEscrow? || s.pc.HaveBalance? { EnvironmentSecures(t, s, a, s.pc.e); }
    if s.terms.Some? { EnvironmentSecures(t, s, a, s.terms.value.0); }
  }

  lemma VerifyBinds(t: Taker, e: Escrow, now: nat)
    requires e.timelock <= U64_MAX && e.amount >= t.lezAmount
    requires VerifyBinding(e, t.me, t.Hashlock(), t.ethTimelock, now).None?
    ensures Bound(t, e, now)
  {
  }

  /** The check passes exactly for an escrow for us, under our hashlock, whose timelock
      is at least 300 seconds away and before our ETH timelock. */
  lemma VerifyBindingIff(e: Escrow, me: Account, hl: Bytes, ethTimelock: nat, now: nat)
    requires e.timelock <= U64_MAX
    ensures VerifyBinding(e, me, hl, ethTimelock, now).None? <==>
      e.takerId == me && e.hashlock == hl && (now + 300) * 1000 <= e.timelock < ethTimelock * 1000
    ensures VerifyBinding(e, me, hl, ethTimelock, now) == Some(WrongTaker) <==> e.takerId != me
    ensures VerifyBinding(e, me, hl, ethTimelock, now) == Some(WrongHashlock) <==> e.takerId == me && e.hashlock != hl
    ensures VerifyBinding(e, me, hl, ethTimelock, now) == Some(TimelockTooShort) <==>
      e.takerId == me && e.hashlock == hl && e.timelock < (now + 300) * 1000
  {
  }

  /** A LEZ timelock fits its 8 bytes on the wire. */
  predicate OnWire(s: State) { s.w.lez.escrow.Some? ==> s.w.lez.escrow.value.timelock <= U64_MAX }

  lemma StepKeeps(t: Taker, s: State, step: Step)
    requires Inv(t, s) && Enabled(t, s, step) && OnWire(s)
    ensures Inv(t, Do(t, s, step))
  {
    match step
    case Environment(a) => EnvironmentKeeps(t, s, a);
    case Verify =>
      var now := s.w.now / 1000;
      if VerifyBinding(s.pc.e, t.me, t.Hashlock(), t.ethTimelock, now).None? { VerifyBinds(t, s.pc.e, now); }
    case _ =>
  }

  // ----- runs -----

  ghost predicate Run(t: Taker, s: State, steps: seq<Step>)
    decreases steps
  {
    OnWire(s) && (steps == [] || (Enabled(t, s, steps[0]) && Run(t, Do(t, s, steps[0]), steps[1..])))
  }

  function After(t: Taker, s: State, steps: seq<Step>): State
    requires Run(t, s, steps)
    decreases steps
  {
    if steps == [] then s else After(t, Do(t, s, steps[0]), steps[1..])
  }

  lemma {:induction false} RunKeeps(t: Taker, s: State, steps: seq<Step>)
    requires Inv(t, s) && Run(t, s, steps)
    ensures Inv(t, After(t, s, steps))
    decreases steps
  {
    if steps != [] {
      StepKeeps(t, s, steps[0]);
      RunKeeps(t, Do(t, s, steps[0]), steps[1..]);
    }
  }

  /** Before the swap: nothing locked on either chain for this hashlock by us, and
      no escrow of this hashlock claimed. */
  predicate Initial(t: Taker, s: State) {
    && ValidWorld(t.sha, t.Hashlock(), s.w) && s.pc == Begin && !s.revealed && s.got == 0 && s.terms.None?
    && s.w.eth.phase == Empty && (s.w.lez.escrow.Some? ==> s.w.lez.escrow.value.phase != Claimed)
  }

  /** Whatever the others do, once the preimage is out the escrow was cleared at
      some second `at`: bound to our hashlock and account, and, as long as its
      timelock has not passed (300 seconds at least, and before our ETH timelock),
      still holding our amount for us alone, or already paid out to us. */
  lemma RevealIsSafe(t: Taker, s: State, steps: seq<Step>)
    requires Initial(t, s) && Run(t, s, steps)
    ensures var r := After(t, s, steps);
      r.revealed ==>
        && r.terms.Some?
        && var (e, at) := r.terms.value;
           && Bound(t, e, at) && Secured(t, r, e)
           && (r.w.now < (at + LEZ_CLAIM_MARGIN_SECS) * 1000 ==>
                 || (r.w.lez.escrow.value.phase == Locked && r.w.lez.balance >= t.lezAmount)
                 || r.got >= t.lezAmount)
  {
    RunKeeps(t, s, steps);
  }

  /** As long as the preimage was not revealed, which includes every exit before the
      claim, the maker has not taken the ETH; and if the maker did take it, the
      taker has been paid or its escrow was open to it for the whole margin. */
  lemma UnrevealedEthIsSafe(t: Taker, s: State, steps: seq<Step>)
    requires Initial(t, s) && Run(t, s, steps)
    ensures var r := After(t, s, steps);
      && (!r.revealed ==> r.w.eth.phase != EthClaimed)
      && (r.pc == Exited(AbortedRefund) || r.terms.None? ==> r.w.eth.phase != EthClaimed)
      && (r.w.eth.phase == EthClaimed ==>
            && r.terms.Some? && r.w.lez.escrow.Some?
            && (r.got >= t.lezAmount || r.w.lez.escrow.value.phase == Locked
                || r.w.now >= (r.terms.value.1 + LEZ_CLAIM_MARGIN_SECS) * 1000))
  {
    RunKeeps(t, s, steps);
  }

  // ----- when the claim is accepted -----

  predicate ClaimAccepted(t: Taker, s: State) { ExecuteClaim(t.sha, s.w.lez, t.me, t.preimage).Some? }

  /** At every instant after the checks, in every run, the program accepts the claim
      exactly if the escrow is still locked and the account holds the escrow's own
      amount. `run_taker` compares the balance with the configured amount instead. */
  lemma ClaimAcceptedIff(t: Taker, s: State)
    requires Inv(t, s) && s.terms.Some? && |t.preimage| == 32
    ensures ClaimAccepted(t, s) <==>
      s.w.lez.escrow.value.phase == Locked && s.w.lez.balance >= s.terms.value.0.amount
  {
  }

  /** The taker has its LEZ, or can still get it by claiming. */
  predicate PaidOrClaimable(t: Taker, s: State) { s.got >= t.lezAmount || ClaimAccepted(t, s) }

  /** Past the checks, with an account that covers the escrow as long as it is locked. */
  predicate Funded(s: State, e: Escrow) {
    && (s.pc.Cleared? || s.pc.Claiming? || s.pc.Exited?) && s.terms.Some? && s.terms.value.0 == e
    && (s.w.lez.escrow.Some? && s.w.lez.escrow.value.phase == Locked ==> s.w.lez.balance >= e.amount)
  }

  lemma FundedStep(t: Taker, s: State, step: Step, e: Escrow)
    requires Inv(t, s) && Enabled(t, s, step) && OnWire(s) && Funded(s, e)
    ensures Funded(Do(t, s, step), e)
  {
    if step.Environment? { StepEvolves(t.sha, t.Hashlock(), s.w, step.a); }
  }

  lemma {:induction false} FundedRun(t: Taker, s: State, steps: seq<Step>, e: Escrow)
    requires Inv(t, s) && Run(t, s, steps) && Funded(s, e)
    ensures Funded(After(t, s, steps), e)
    decreases steps
  {
    if steps != [] {
      StepKeeps(t, s, steps[0]);
      FundedStep(t, s, steps[0], e);
      FundedRun(t, Do(t, s, steps[0]), steps[1..], e);
    }
  }

  /** From here on, at every instant of every run before the escrow's timelock. */
  ghost predicate StaysPaidOrClaimable(t: Taker, s: State)
    requires s.pc.Cleared?
  {
    forall steps :: Run(t, s, steps) && After(t, s, steps).w.now < s.pc.e.timelock ==>
      PaidOrClaimable(t, After(t, s, steps))
  }

  /** Revealing is safe for the taker, whatever the others do, exactly if the account
      holds the escrow's own amount when the checks have passed. */
  lemma RevealPaysIff(t: Taker, s: State)
    requires Inv(t, s) && OnWire(s) && s.pc.Cleared? && s.w.now < s.pc.e.timelock && |t.preimage| == 32
    requires t.lezAmount > 0
    ensures StaysPaidOrClaimable(t, s) <==> s.w.lez.balance >= s.pc.e.amount
  {
    if s.w.lez.balance >= s.pc.e.amount {
      forall steps | Run(t, s, steps) && After(t, s, steps).w.now < s.pc.e.timelock
        ensures PaidOrClaimable(t, After(t, s, steps))
      {
        RunKeeps(t, s, steps);
        FundedRun(t, s, steps, s.pc.e);
      }
    } else {
      assert Run(t, s, []) && After(t, s, []) == s;
      ClaimAcceptedIff(t, s);
    }
  }

  // ----- an overstated escrow -----

  /** The maker locks twice the agreed amount and funds the agreed one. */
  function Overstated(t: Taker, maker: Account, now: nat): Escrow {
    Escrow(t.Hashlock(), maker, t.me, 2 * t.lezAmount, (now / 1000 + 600) * 1000, Locked, None)
  }

  lemma OneStep(t: Taker, s: State, step: Step, rest: seq<Step>)
    requires OnWire(s) && Enabled(t, s, step) && Run(t, Do(t, s, step), rest)
    ensures Run(t, s, [step] + rest) && After(t, s, [step] + rest) == After(t, Do(t, s, step), rest)
  {
    assert ([step] + rest)[1..] == rest;
  }

  lemma OverstatedChecks(t: Taker, maker: Account, now: nat)
    requires (now / 1000 + 600) * 1000 <= U64_MAX && now / 1000 + 600 < t.ethTimelock
    ensures EscrowAcceptable(t, Overstated(t, maker, now))
    ensures VerifyBinding(Overstated(t, maker, now), t.me, t.Hashlock(), t.ethTimelock, now / 1000).None?
  {
  }

  /** The swap about to start, the escrow locked and funded, and past the checks. */
  function Before(now: nat): State { State(World(now, Lez(None, 0), Eth(Empty, [], 0)), Begin, false, 0, None) }

  function WhenLocked(t: Taker, e: Escrow, now: nat): State {
    State(World(now, Lez(Some(e), t.lezAmount), Eth(Open, t.Hashlock(), t.ethTimelock)), Waiting, false, 0, None)
  }

  function WhenCleared(t: Taker, e: Escrow, now: nat): State {
    WhenLocked(t, e, now).(pc := Cleared(e, now / 1000), terms := Some((e, now / 1000)))
  }

  function LockSteps(t: Taker, e: Escrow): seq<Step> {
    [LockEth(true, true), Environment(LezLock(e.makerId, t.me, e.amount, e.timelock)),
     Environment(LezCredit(t.lezAmount))]
  }

  function CheckSteps(t: Taker, e: Escrow): seq<Step> {
    [Receive(ClaimedEvent), Receive(LockedEvent), ReadEscrow(ReadFound(e)), ReadBalance(Some(t.lezAmount)), Verify]
  }

  function ClaimSteps(t: Taker): seq<Step> {
    [Reveal, Environment(EthClaim(t.preimage)), Environment(LezClaim(t.me, t.preimage))]
  }

  lemma LockPart(t: Taker, e: Escrow, now: nat, rest: seq<Step>)
    requires e.makerId != t.me && e.takerId == t.me && e.hashlock == t.Hashlock() && e.phase == Locked
    requires e.preimage.None? && e.timelock <= U64_MAX
    requires Run(t, WhenLocked(t, e, now), rest)
    ensures Run(t, Before(now), LockSteps(t, e) + rest)
    ensures After(t, Before(now), LockSteps(t, e) + rest) == After(t, WhenLocked(t, e, now), rest)
  {
    var steps := LockSteps(t, e);
    var s1 := Do(t, Before(now), steps[0]);
    var s2 := Do(t, s1, steps[1]);
    assert s2.w.lez == Lez(Some(e), 0) && Do(t, s2, steps[2]) == WhenLocked(t, e, now);
    OneStep(t, s2, steps[2], rest);
    OneStep(t, s1, steps[1], [steps[2]] + rest);
    OneStep(t, Before(now), steps[0], [steps[1]] + ([steps[2]] + rest));
    assert steps + rest == [steps[0]] + ([steps[1]] + ([steps[2]] + rest));
  }

  lemma CheckPart(t: Taker, e: Escrow, now: nat, rest: seq<Step>)
    requires EscrowAcceptable(t, e) && e.timelock <= U64_MAX
    requires VerifyBinding(e, t.me, t.Hashlock(), t.ethTimelock, now / 1000).None?
    requires Run(t, WhenCleared(t, e, now), rest)
    ensures Run(t, WhenLocked(t, e, now), CheckSteps(t, e) + rest)
    ensures After(t, WhenLocked(t, e, now), CheckSteps(t, e) + rest) == After(t, WhenCleared(t, e, now), rest)
  {
    var s3 := WhenLocked(t, e, now);
    var steps := CheckSteps(t, e);
    OneStep(t, s3.(pc := HaveBalance(e)), Verify, rest);
    OneStep(t, s3.(pc := HaveEscrow(e)), steps[3], [Verify] + rest);
    OneStep(t, s3.(pc := Verifying), steps[2], [steps[3]] + ([Verify] + rest));
    OneStep(t, s3, steps[1], [steps[2]] + ([steps[3]] + ([Verify] + rest)));
    // A stray claim event is passed over.
    OneStep(t, s3, steps[0], [steps[1]] + ([steps[2]] + ([steps[3]] + ([Verify] + rest))));
    assert steps + rest == [steps[0]] + ([steps[1]] + ([steps[2]] + ([steps[3]] + ([Verify] + rest))));
  }

  lemma ClaimPart(t: Taker, s: State)
    requires OnWire(s) && s.pc.Cleared? && !s.revealed && s.got == 0 && s.w.lez.escrow.Some?
    requires s.w.lez.balance < s.w.lez.escrow.value.amount && s.w.eth.phase == Open && s.w.eth.hashlock == t.Hashlock()
    ensures Run(t, s, ClaimSteps(t))
    ensures var r := After(t, s, ClaimSteps(t));
      && r.revealed && r.w.eth.phase == EthClaimed && r.got == 0 && r.w.now == s.w.now && r.w.lez == s.w.lez
      && !ClaimAccepted(t, r)
  {
    var steps := ClaimSteps(t);
    var s1 := Do(t, s, Reveal);
    var s2 := Do(t, s1, steps[1]);
    assert Do(t, s2, steps[2]) == s2;
    OneStep(t, s2, steps[2], []);
    OneStep(t, s1, steps[1], [steps[2]]);
    OneStep(t, s, Reveal, [steps[1], steps[2]]);
  }

  /** From every state past the checks with a short account and an open ETH lock, the
      others can let the taker reveal, take the ETH, and leave its claim rejected. */
  lemma ShortAccountLoses(t: Taker, s: State)
    requires Inv(t, s) && OnWire(s) && s.pc.Cleared? && s.w.eth.phase == Open
    requires s.w.lez.balance < s.pc.e.amount
    ensures Run(t, s, ClaimSteps(t))
    ensures var r := After(t, s, ClaimSteps(t));
      r.revealed && r.w.eth.phase == EthClaimed && r.got == 0 && r.w.now == s.w.now && !ClaimAccepted(t, r)
  {
    ClaimPart(t, s);
  }

  /** The loss: every check passes, the preimage is revealed, the maker takes the ETH,
      and the program rejects the taker's claim before the timelock. */
  lemma OverstatedEscrowLoses(t: Taker, maker: Account, now: nat)
    requires t.lezAmount > 0 && maker != t.me
    requires (now / 1000 + 600) * 1000 <= U64_MAX && now / 1000 + 600 < t.ethTimelock
    ensures var e := Overstated(t, maker, now);
      var steps := LockSteps(t, e) + (CheckSteps(t, e) + ClaimSteps(t));
      && Initial(t, Before(now)) && Run(t, Before(now), steps)
      && var r := After(t, Before(now), steps);
         && r.revealed && r.w.eth.phase == EthClaimed && r.got == 0 && r.w.now < e.timelock
         && r.w.lez == Lez(Some(e), t.lezAmount) && !ClaimAccepted(t, r)
  {
    var e := Overstated(t, maker, now);
    OverstatedChecks(t, maker, now);
    ClaimPart(t, WhenCleared(t, e, now));
    CheckPart(t, e, now, ClaimSteps(t));
    LockPart(t, e, now, CheckSteps(t, e) + ClaimSteps(t));
  }

  /** An escrow for exactly the agreed amount. */
  function Fair(t: Taker, maker: Account, now: nat): Escrow { Overstated(t, maker, now).(amount := t.lezAmount) }

  lemma PaidPart(t: Taker, e: Escrow, now: nat)
    requires e.phase == Locked && e.amount == t.lezAmount && e.takerId == t.me && e.hashlock == t.Hashlock()
    requires |t.preimage| == 32 && e.timelock <= U64_MAX
    ensures var steps := [Reveal, Environment(LezClaim(t.me, t.preimage)), ClaimReturns(true)];
      && Run(t, WhenCleared(t, e, now), steps)
      && var r := After(t, WhenCleared(t, e, now), steps);
         r.pc == Exited(Completed) && r.got == t.lezAmount && r.w.lez.balance == 0
  {
    var claim := Environment(LezClaim(t.me, t.preimage));
    var s7 := WhenCleared(t, e, now);
    var s8 := Do(t, s7, Reveal);
    var s9 := Do(t, s8, claim);
    OneStep(t, s9, ClaimReturns(true), []);
    OneStep(t, s8, claim, [ClaimReturns(true)]);
    OneStep(t, s7, Reveal, [claim, ClaimReturns(true)]);
  }

  /** With an honest maker the swap completes: the taker gets exactly the agreed amount. */
  lemma FairSwapCompletes(t: Taker, maker: Account, now: nat)
    requires |t.preimage| == 32 && maker != t.me
    requires (now / 1000 + 600) * 1000 <= U64_MAX && now / 1000 + 600 < t.ethTimelock
    ensures var e := Fair(t, maker, now);
      var steps := LockSteps(t, e)
        + (CheckSteps(t, e) + [Reveal, Environment(LezClaim(t.me, t.preimage)), ClaimReturns(true)]);
      && Initial(t, Before(now)) && Run(t, Before(now), steps)
      && After(t, Before(now), steps).pc == Exited(Completed) && After(t, Before(now), steps).got == t.lezAmount
  {
    var e := Fair(t, maker, now);
    var paid := [Reveal, Environment(LezClaim(t.me, t.preimage)), ClaimReturns(true)];
    VerifyBindingIff(e, t.me, t.Hashlock(), t.ethTimelock, now / 1000);
    PaidPart(t, e, now);
    CheckPart(t, e, now, paid);
    LockPart(t, e, now, CheckSteps(t, e) + paid);
  }
}
