/** The polling loops of the LEZ client and of reconciliation: bounded escrow and
    balance reads (src/cli/bot.rs), the two-step lock and the confirmed refund
    (src/lez/client.rs). What the sequencer answers at each attempt is an input. */
module Reads {
  import opened Common
  import opened Htlc

  const MAX_READS: nat := 5

  /** One `get_escrow`: an RPC error, `Ok(None)` (missing, short or phantom data), or an escrow. */
  datatype EscrowRead = ReadErr | ReadAbsent | ReadFound(escrow: Escrow)

  datatype BoundedEscrowRead = BoundedEscrowRead(escrow: Option<Escrow>, anyErr: bool, absentReads: nat)

  // ----- read_escrow_bounded_with -----

  function BoundedFrom(answers: nat -> EscrowRead, i: nat, anyErr: bool, absent: nat): BoundedEscrowRead
    decreases MAX_READS - i
  {
    if i >= MAX_READS then BoundedEscrowRead(None, anyErr, absent) else
      match answers(i)
      case ReadFound(e) => BoundedEscrowRead(Some(e), anyErr, absent)
      case ReadAbsent => BoundedFrom(answers, i + 1, anyErr, absent + 1)
      case ReadErr => BoundedFrom(answers, i + 1, true, absent)
  }

  function BoundedRead(answers: nat -> EscrowRead): BoundedEscrowRead { BoundedFrom(answers, 0, false, 0) }

  method ReadEscrowBounded(answers: nat -> EscrowRead) returns (r: BoundedEscrowRead)
    ensures r == BoundedRead(answers)
  {
    var anyErr, absent := false, 0;
    var attempt := 0;
    while attempt < MAX_READS
      invariant 0 <= attempt <= MAX_READS
      invariant BoundedFrom(answers, attempt, anyErr, absent) == BoundedRead(answers)
    {
      match answers(attempt) {
        case ReadFound(e) => return BoundedEscrowRead(Some(e), anyErr, absent);
        case ReadAbsent => absent := absent + 1;
        case ReadErr => anyErr := true;
      }
      attempt := attempt + 1;
    }
    return BoundedEscrowRead(None, anyErr, absent);
  }

  lemma {:induction false} BoundedFromMeaning(answers: nat -> EscrowRead, i: nat, anyErr: bool, absent: nat)
    requires i <= MAX_READS
    ensures var r := BoundedFrom(answers, i, anyErr, absent);
      && (r.escrow.Some? ==> exists k :: i <= k < MAX_READS && answers(k) == ReadFound(r.escrow.value))
      && (r.escrow.None? <==> forall k :: i <= k < MAX_READS ==> !answers(k).ReadFound?)
      && (r.escrow.None? ==> (r.anyErr <==> anyErr || exists k :: i <= k < MAX_READS && answers(k).ReadErr?))
      && (r.escrow.None? && !r.anyErr ==> r.absentReads == absent + MAX_READS - i)
    decreases MAX_READS - i
  {
    if i < MAX_READS {
      match answers(i)
      case ReadFound(e) =>
      case ReadAbsent =>
        BoundedFromMeaning(answers, i + 1, anyErr, absent + 1);
      case ReadErr =>
        BoundedFromMeaning(answers, i + 1, true, absent);
        assert answers(i).ReadErr?;
    }
  }

  /** An escrow comes from some read; absence is reported only if no read found
      one, and is authoritative only if all five answered and answered absent. */
  lemma BoundedReadMeaning(answers: nat -> EscrowRead)
    ensures var r := BoundedRead(answers);
      && (r.escrow.Some? ==> exists k :: 0 <= k < MAX_READS && answers(k) == ReadFound(r.escrow.value))
      && (r.escrow.None? <==> forall k :: 0 <= k < MAX_READS ==> !answers(k).ReadFound?)
      && (r.escrow.None? && !r.anyErr <==> forall k :: 0 <= k < MAX_READS ==> answers(k) == ReadAbsent)
      && (r.escrow.None? && !r.anyErr ==> r.absentReads == MAX_READS)
  {
    BoundedFromMeaning(answers, 0, false, 0);
    var r := BoundedRead(answers);
    if forall k :: 0 <= k < MAX_READS ==> answers(k) == ReadAbsent {
      assert forall k :: 0 <= k < MAX_READS ==> !answers(k).ReadFound?;
    }
  }

  /** The first of the five reads that found an escrow found `e`. */
  ghost predicate FirstFound(answers: nat -> EscrowRead, e: Escrow) {
    exists k :: 0 <= k < MAX_READS && answers(k) == ReadFound(e) && NothingFoundBefore(answers, k)
  }

  predicate NothingFoundBefore(answers: nat -> EscrowRead, k: nat) { forall j: nat :: j < k ==> !answers(j).ReadFound? }

  lemma {:induction false} BoundedFromIsFirst(answers: nat -> EscrowRead, i: nat, anyErr: bool, absent: nat)
    requires i <= MAX_READS && NothingFoundBefore(answers, i)
    ensures var r := BoundedFrom(answers, i, anyErr, absent).escrow;
      r.Some? ==> exists k :: 0 <= k < MAX_READS && answers(k) == ReadFound(r.value) && NothingFoundBefore(answers, k)
    decreases MAX_READS - i
  {
    if i < MAX_READS {
      match answers(i)
      case ReadFound(e) =>
      case ReadAbsent => BoundedFromIsFirst(answers, i + 1, anyErr, absent + 1);
      case ReadErr => BoundedFromIsFirst(answers, i + 1, true, absent);
    }
  }

  /** The read returns what the first successful one of the five found. */
  lemma BoundedReadIsFirst(answers: nat -> EscrowRead, e: Escrow)
    ensures BoundedRead(answers).escrow == Some(e) <==> FirstFound(answers, e)
  {
    BoundedFromIsFirst(answers, 0, false, 0);
    BoundedReadMeaning(answers);
    if FirstFound(answers, e) {
      var k :| 0 <= k < MAX_READS && answers(k) == ReadFound(e) && NothingFoundBefore(answers, k);
      var f := BoundedRead(answers).escrow.value;
      var j :| 0 <= j < MAX_READS && answers(j) == ReadFound(f) && NothingFoundBefore(answers, j);
      assert j == k;
    }
  }

  // ----- max_escrow_balance_with -----

  function MaxFrom(answers: nat -> Option<nat>, enough: nat, i: nat, best: Option<nat>): Option<nat>
    decreases MAX_READS - i
  {
    if i >= MAX_READS then best else
      match answers(i)
      case None => MaxFrom(answers, enough, i + 1, best)
      case Some(b) =>
        var m: nat := if best.Some? then Max(best.value, b) else b;
        if m >= enough then Some(m) else MaxFrom(answers, enough, i + 1, Some(m))
  }

  function MaxBalance(answers: nat -> Option<nat>, enough: nat): Option<nat> { MaxFrom(answers, enough, 0, None) }

  method MaxEscrowBalance(answers: nat -> Option<nat>, enough: nat) returns (best: Option<nat>)
    ensures best == MaxBalance(answers, enough)
  {
    best := None;
    var attempt := 0;
    ghost var goal := MaxBalance(answers, enough);
    while attempt < MAX_READS
      invariant 0 <= attempt <= MAX_READS
      invariant MaxFrom(answers, enough, attempt, best) == goal
    {
      var answer := answers(attempt);
      if answer.Some? {
        best := Some(if best.Some? then Max(best.value, answer.value) else answer.value);
        if best.value >= enough {
          return;
        }
      }
      attempt := attempt + 1;
    }
  }

  lemma {:induction false} MaxFromMeaning(answers: nat -> Option<nat>, enough: nat, i: nat, best: Option<nat>)
    requires i <= MAX_READS && (best.Some? ==> best.value < enough)
    ensures var r := MaxFrom(answers, enough, i, best);
      && (r.None? <==> best.None? && forall k :: i <= k < MAX_READS ==> answers(k).None?)
      && (r.Some? && r.value < enough ==>
            && (best.Some? ==> best.value <= r.value)
            && forall k :: i <= k < MAX_READS && answers(k).Some? ==> answers(k).value <= r.value)
      && (r.Some? ==> r == best || exists k :: i <= k < MAX_READS && answers(k) == r)
    decreases MAX_READS - i
  {
    if i < MAX_READS {
      match answers(i)
      case None => MaxFromMeaning(answers, enough, i + 1, best);
      case Some(b) =>
        var m: nat := if best.Some? then Max(best.value, b) else b;
        if m < enough {
          MaxFromMeaning(answers, enough, i + 1, Some(m));
        }
    }
  }

  /** `None` is an outage of all five reads, never a zero; a value below `enough`
      bounds every answer that was given; and the value was really read. */
  lemma MaxBalanceMeaning(answers: nat -> Option<nat>, enough: nat)
    ensures var r := MaxBalance(answers, enough);
      && (r.None? <==> forall k :: 0 <= k < MAX_READS ==> answers(k).None?)
      && (r.Some? && r.value < enough ==>
            forall k :: 0 <= k < MAX_READS && answers(k).Some? ==> answers(k).value <= r.value)
      && (r.Some? ==> exists k :: 0 <= k < MAX_READS && answers(k) == r)
  {
    MaxFromMeaning(answers, enough, 0, None);
  }

  predicate SomeEnough(answers: nat -> Option<nat>, enough: nat, i: nat) {
    exists k :: i <= k < MAX_READS && IsEnough(answers(k), enough)
  }

  predicate IsEnough(a: Option<nat>, enough: nat) { a.Some? && a.value >= enough }

  lemma SomeEnoughStep(answers: nat -> Option<nat>, enough: nat, i: nat)
    requires i < MAX_READS
    ensures SomeEnough(answers, enough, i) <==> IsEnough(answers(i), enough) || SomeEnough(answers, enough, i + 1)
  {
  }

  lemma {:induction false} MaxFromReaches(answers: nat -> Option<nat>, enough: nat, i: nat, best: Option<nat>)
    requires i <= MAX_READS && (best.Some? ==> best.value < enough)
    ensures IsEnough(MaxFrom(answers, enough, i, best), enough) <==> SomeEnough(answers, enough, i)
    decreases MAX_READS - i
  {
    if i < MAX_READS {
      SomeEnoughStep(answers, enough, i);
      match answers(i)
      case None => MaxFromReaches(answers, enough, i + 1, best);
      case Some(b) =>
        var m: nat := if best.Some? then Max(best.value, b) else b;
        if m < enough { MaxFromReaches(answers, enough, i + 1, Some(m)); }
    }
  }

  /** Some read of the five answered, and none that did showed `enough`. */
  predicate ReadsShort(answers: nat -> Option<nat>, enough: nat) {
    && (exists k :: 0 <= k < MAX_READS && answers(k).Some?)
    && forall k :: 0 <= k < MAX_READS && answers(k).Some? ==> answers(k).value < enough
  }

  /** The account counts as short exactly if some read answered and every answer is. */
  lemma ShortIff(answers: nat -> Option<nat>, enough: nat)
    ensures var r := MaxBalance(answers, enough); r.Some? && r.value < enough <==> ReadsShort(answers, enough)
  {
    MaxBalanceMeaning(answers, enough);
    MaxFromReaches(answers, enough, 0, None);
  }

  // ----- refund_confirmed -----

  const MAX_ABSENT_READS: nat := 5

  /** One turn of the confirmation loop: the read, and whether the deadline has
      passed when the turn ends. Whether a submission succeeds changes nothing. */
  datatype Turn = Turn(read: EscrowRead, late: bool)

  datatype RefundOutcome =
    | RefundSeen
    | ClaimedByTaker(preimage: Bytes)
    | Unconfirmed

  function ClaimedOutcome(e: Escrow): RefundOutcome {
    match e.preimage
    case Some(p) => if |p| == 32 then ClaimedByTaker(p) else Unconfirmed
    case None => Unconfirmed
  }

  /** The loop from turn `i`: its outcome and the turn that decided it. */
  function RefundFrom(turns: nat -> Turn, limit: nat, i: nat, absent: nat): (RefundOutcome, nat)
    decreases limit - i
  {
    match turns(i).read
    case ReadErr => (Unconfirmed, i)
    case ReadFound(e) =>
      (match e.phase
       case Refunded => (RefundSeen, i)
       case Claimed => (ClaimedOutcome(e), i)
       case Locked => if turns(i).late || i >= limit then (Unconfirmed, i) else RefundFrom(turns, limit, i + 1, 0))
    case ReadAbsent =>
      if absent + 1 >= MAX_ABSENT_READS || turns(i).late || i >= limit then (Unconfirmed, i)
      else RefundFrom(turns, limit, i + 1, absent + 1)
  }

  predicate LockedTurn(t: Turn) { t.read.ReadFound? && t.read.escrow.phase == Locked }

  /** `refund_confirmed`; `limit` is a turn by which the deadline has passed. The
      refund transaction is submitted at most once, on the first `Locked` read. */
  method RefundConfirmed(turns: nat -> Turn, limit: nat) returns (r: RefundOutcome, last: nat, submitted: Option<nat>)
    requires turns(limit).late
    ensures (r, last) == RefundFrom(turns, limit, 0, 0) && last <= limit
    ensures submitted.Some? ==> submitted.value <= last && LockedTurn(turns(submitted.value))
    ensures submitted.None? ==> forall k :: 0 <= k <= last ==> !LockedTurn(turns(k))
    ensures submitted.Some? ==> forall k :: 0 <= k < submitted.value ==> !LockedTurn(turns(k))
  {
    submitted := None;
    var absent := 0;
    last := 0;
    while true
      invariant last <= limit
      invariant RefundFrom(turns, limit, last, absent) == RefundFrom(turns, limit, 0, 0)
      invariant submitted.Some? ==> submitted.value < last && LockedTurn(turns(submitted.value))
      invariant submitted.None? ==> forall k :: 0 <= k < last ==> !LockedTurn(turns(k))
      invariant submitted.Some? ==> forall k :: 0 <= k < submitted.value ==> !LockedTurn(turns(k))
      decreases limit - last
    {
      match turns(last).read {
        case ReadErr =>
          r := Unconfirmed;
          return;
        case ReadFound(e) =>
          match e.phase {
            case Refunded =>
              r := RefundSeen;
              return;
            case Claimed =>
              r := ClaimedOutcome(e);
              return;
            case Locked =>
              absent := 0;
              if submitted.None? {
                submitted := Some(last);
              }
          }
        case ReadAbsent =>
          absent := absent + 1;
          if absent >= MAX_ABSENT_READS {
            r := Unconfirmed;
            return;
          }
      }
      if turns(last).late {
        r := Unconfirmed;
        return;
      }
      last := last + 1;
    }
  }

  /** A refund is reported only on an observed `Refunded`, a claim only on an
      observed `Claimed` with its 32-byte preimage. Absence never counts. */
  lemma {:induction false} RefundFromMeaning(turns: nat -> Turn, limit: nat, i: nat, absent: nat)
    ensures var (r, last) := RefundFrom(turns, limit, i, absent);
      && i <= last
      && (r.RefundSeen? ==> turns(last).read.ReadFound? && turns(last).read.escrow.phase == Refunded)
      && (r.ClaimedByTaker? ==>
            && turns(last).read.ReadFound? && turns(last).read.escrow.phase == Claimed
            && turns(last).read.escrow.preimage == Some(r.preimage) && |r.preimage| == 32)
    decreases limit - i
  {
    match turns(i).read
    case ReadErr =>
    case ReadFound(e) =>
      if e.phase == Locked && !turns(i).late && i < limit { RefundFromMeaning(turns, limit, i + 1, 0); }
    case ReadAbsent =>
      if absent + 1 < MAX_ABSENT_READS && !turns(i).late && i < limit {
        RefundFromMeaning(turns, limit, i + 1, absent + 1);
      }
  }

  /** Turn `j` is the fifth absent read in a row. */
  predicate GivesUp(turns: nat -> Turn, j: nat) {
    && j >= 4 && turns(j).read.ReadAbsent? && turns(j - 1).read.ReadAbsent? && turns(j - 2).read.ReadAbsent?
    && turns(j - 3).read.ReadAbsent? && turns(j - 4).read.ReadAbsent?
  }

  /** Turn `k` neither decides nor ends the confirmation. */
  predicate GoesOn(turns: nat -> Turn, k: nat) {
    !turns(k).late && (LockedTurn(turns(k)) || (turns(k).read.ReadAbsent? && !GivesUp(turns, k)))
  }

  predicate StillConfirming(turns: nat -> Turn, i: nat) { forall k: nat :: k < i ==> GoesOn(turns, k) }

  /** `absent` counts the absent reads in a row that lead up to turn `i`. */
  predicate Streak(turns: nat -> Turn, i: nat, absent: nat) {
    && absent <= i && absent < MAX_ABSENT_READS
    && (forall k: nat :: i - absent <= k < i ==> turns(k).read.ReadAbsent?)
    && (absent < i ==> !turns(i - absent - 1).read.ReadAbsent?)
  }

  /** What the deciding turn says. */
  function Decided(t: Turn): RefundOutcome {
    if t.read.ReadFound? && t.read.escrow.phase == Refunded then RefundSeen
    else if t.read.ReadFound? && t.read.escrow.phase == Claimed && t.read.escrow.preimage.Some?
            && |t.read.escrow.preimage.value| == 32
    then ClaimedByTaker(t.read.escrow.preimage.value)
    else Unconfirmed
  }

  lemma StreakEnds(turns: nat -> Turn, i: nat, absent: nat)
    requires Streak(turns, i, absent) && turns(i).read.ReadAbsent?
    ensures GivesUp(turns, i) <==> absent + 1 >= MAX_ABSENT_READS
    ensures absent + 1 < MAX_ABSENT_READS ==> Streak(turns, i + 1, absent + 1)
  {
  }

  lemma {:induction false} RefundFromDecides(turns: nat -> Turn, limit: nat, i: nat, absent: nat)
    requires i <= limit && turns(limit).late && StillConfirming(turns, i) && Streak(turns, i, absent)
    ensures var (r, last) := RefundFrom(turns, limit, i, absent);
      StillConfirming(turns, last) && !GoesOn(turns, last) && r == Decided(turns(last))
    decreases limit - i
  {
    match turns(i).read
    case ReadErr =>
    case ReadFound(e) =>
      if e.phase == Locked && !turns(i).late {
        assert GoesOn(turns, i);
        RefundFromDecides(turns, limit, i + 1, 0);
      }
    case ReadAbsent =>
      StreakEnds(turns, i, absent);
      if absent + 1 < MAX_ABSENT_READS && !turns(i).late {
        assert GoesOn(turns, i);
        RefundFromDecides(turns, limit, i + 1, absent + 1);
      }
  }

  /** The outcome is `r`, decided by a turn reached while neither the deadline nor
      five absences in a row ended the polling. */
  ghost predicate ConfirmsBy(turns: nat -> Turn, r: RefundOutcome) {
    exists i: nat :: StillConfirming(turns, i) && !GoesOn(turns, i) && Decided(turns(i)) == r
  }

  /** `refund_confirmed` reports exactly what the first deciding turn says. */
  lemma RefundIff(turns: nat -> Turn, limit: nat, r: RefundOutcome)
    requires turns(limit).late
    ensures RefundFrom(turns, limit, 0, 0).0 == r <==> ConfirmsBy(turns, r)
  {
    RefundFromDecides(turns, limit, 0, 0);
    var last := RefundFrom(turns, limit, 0, 0).1;
    forall i: nat | StillConfirming(turns, i) && !GoesOn(turns, i) ensures i == last {}
  }

  // ----- lock -----

  datatype Terms = Terms(maker: Account, taker: Account, amount: nat, timelock: nat)

  predicate ConfirmsOurLock(e: Escrow, t: Terms) {
    && e.phase == Locked && e.makerId == t.maker && e.takerId == t.taker
    && e.amount == t.amount && e.timelock == t.timelock
  }

  predicate BlocksFreshLock(existing: Option<Phase>) { existing.Some? }

  datatype LockStep = NotSubmitted | Refused(turn: nat) | TimedOut | Confirmed(turn: nat)

  /** The escrow read is locked on exactly our terms. */
  predicate SeesOurLock(t: Turn, terms: Terms) {
    && t.read.ReadFound? && t.read.escrow.phase == Locked
    && Terms(t.read.escrow.makerId, t.read.escrow.takerId, t.read.escrow.amount, t.read.escrow.timelock) == terms
  }

  /** The poll reaches turn `i`: all before it were absent and in time. */
  predicate PollReaches(turns: nat -> Turn, i: nat) {
    forall k: nat :: k < i ==> turns(k).read == ReadAbsent && !turns(k).late
  }

  /** `LezClient::lock` up to the funding transfer: the check before submitting,
      the submission, and the poll that must see exactly our escrow. */
  method LockUntilConfirmed(check: EscrowRead, sendOk: bool, turns: nat -> Turn, limit: nat, terms: Terms)
    returns (step: LockStep)
    requires turns(limit).late
    ensures step.NotSubmitted? <==> check != ReadAbsent || !sendOk
    ensures step.Confirmed? <==>
      && check == ReadAbsent && sendOk
      && exists i: nat :: i <= limit && PollReaches(turns, i) && SeesOurLock(turns(i), terms)
    ensures step.Confirmed? ==>
      step.turn <= limit && PollReaches(turns, step.turn) && SeesOurLock(turns(step.turn), terms)
    ensures step.Refused? ==>
      && step.turn <= limit && PollReaches(turns, step.turn)
      && turns(step.turn).read != ReadAbsent && !SeesOurLock(turns(step.turn), terms)
    ensures step.TimedOut? <==>
      && check == ReadAbsent && sendOk
      && exists i: nat :: i <= limit && PollReaches(turns, i) && turns(i).read == ReadAbsent && turns(i).late
  {
    if check == ReadErr {
      return NotSubmitted;
    }
    if BlocksFreshLock(if check.ReadFound? then Some(check.escrow.phase) else None) {
      return NotSubmitted;
    }
    if !sendOk {
      return NotSubmitted;
    }
    var i := 0;
    while true
      invariant i <= limit && PollReaches(turns, i)
      decreases limit - i
    {
      match turns(i).read {
        case ReadErr => return Refused(i);
        case ReadFound(e) =>
          if ConfirmsOurLock(e, terms) {
            return Confirmed(i);
          }
          return Refused(i);
        case ReadAbsent =>
      }
      if turns(i).late {
        return TimedOut;
      }
      i := i + 1;
    }
  }

  /** How a `lock` call ends. */
  datatype LockOutcome = LockFailed | LockFunded

  /** One balance poll after the transfer; an error reads as zero. */
  datatype BalancePoll = BalancePoll(balance: Option<nat>, late: bool)

  function Shown(p: BalancePoll): nat { if p.balance.Some? then p.balance.value else 0 }

  /** The poll after the transfer. */
  method PollFunding(polls: nat -> BalancePoll, limit: nat, amount: nat) returns (ok: bool)
    requires polls(limit).late
    ensures ok <==>
      exists i: nat :: i <= limit && Shown(polls(i)) >= amount && forall k: nat :: k < i ==> !polls(k).late
  {
    var i := 0;
    while true
      invariant 0 <= i <= limit
      invariant forall k: nat :: k < i ==> !polls(k).late && Shown(polls(k)) < amount
      decreases limit - i
    {
      if Shown(polls(i)) >= amount {
        return true;
      }
      if polls(i).late {
        return false;
      }
      i := i + 1;
    }
  }

  predicate ShowsFull(p: BalancePoll, amount: nat) {
    if p.balance.Some? then p.balance.value >= amount else amount == 0
  }

  /** The whole `lock`: the transfer is sent only after our own escrow was seen, at
      most once, and success means that a poll showed the full amount. */
  method LockAndFund(check: EscrowRead, sendOk: bool, turns: nat -> Turn, limit: nat, terms: Terms,
                     transferOk: bool, polls: nat -> BalancePoll, pollLimit: nat)
    returns (r: LockOutcome, step: LockStep, sent: bool)
    requires turns(limit).late && polls(pollLimit).late
    ensures sent <==>
      && check == ReadAbsent && sendOk
      && exists i: nat :: i <= limit && PollReaches(turns, i) && SeesOurLock(turns(i), terms)
    ensures sent ==>
      exists i: nat, e: Escrow :: i <= limit && turns(i).read == ReadFound(e)
        && e.phase == Locked && e.makerId == terms.maker && e.takerId == terms.taker
        && e.amount == terms.amount && e.timelock == terms.timelock
    ensures sent <==> step.Confirmed?
    ensures r.LockFunded? <==>
      && sent && transferOk
      && exists i: nat ::
           i <= pollLimit && ShowsFull(polls(i), terms.amount) && forall k: nat :: k < i ==> !polls(k).late
  {
    step := LockUntilConfirmed(check, sendOk, turns, limit, terms);
    sent := step.Confirmed?;
    if !sent || !transferOk {
      return LockFailed, step, sent;
    }
    var ok := PollFunding(polls, pollLimit, terms.amount);
    r := if ok then LockFunded else LockFailed;
  }
}
