/** Serialized signed writes of the MCP server (lez-mcp/src/server.rs): the
    signed-write lock, critical sections detached from their requests, the nonce
    reads of Initialize and Transfer, and confirmation by hash or by nonce advance.

    Requests arrive, queue for the lock and may be dropped at any await. The
    sequencer commits or silently discards what it was sent, at any later time. */
module SignedWrites {
  import opened Common

  datatype Kind = Initialize | Transfer

  /** `serial` stands for the transaction hash: no two submissions share it. */
  datatype Tx = Tx(kind: Kind, nonce: nat, serial: nat)

  /** A transfer request (initializing its account first if needed), or an auto-init. */
  datatype Job = Job(transfer: bool, needInit: bool)

  datatype How = ByHash | ByNonce

  datatype Pc =
    | Waiting                          // queued for the lock
    | Gating                           // auto-init: lock held, not yet detached
    | Start                            // detached section begins
    | Unowned                          // ownership re-read: the account is a default one
    | InitRead(n: nat)                 // nonce read for the Initialize
    | InitSent(tx: Tx)
    | InitSeen(tx: Tx)                 // confirmed; ownership is checked next
    | Ready                            // about to read the nonce the Transfer is watched by
    | Watching(n: nat)
    | Reread(n: nat, m: nat)           // the transfer call's own nonce read
    | Sent(tx: Tx, n: nat)
    | Done(claimed: Option<Tx>)        // the lock is released; what was reported confirmed

  datatype Task = Task(job: Job, attended: bool, pc: Pc)

  /** `settled` collects the confirmed transactions that had in fact committed. */
  datatype State = State(base: nat, owned: bool, committed: seq<Tx>, pending: set<Tx>, serial: nat,
                         lock: Option<nat>, tasks: map<nat, Task>, confirmed: set<Tx>, settled: set<Tx>)
  {
    function Nonce(): nat { base + |committed| }
  }

  datatype Action =
    | Arrive(r: nat, job: Job)
    | Disconnect(r: nat)
    | Acquire(r: nat)
    | Advance(r: nat)
    | Fail(r: nat)
    | Submit(r: nat, delivered: bool, reported: bool)
    | Confirm(r: nat, how: How)
    | GiveUp(r: nat)
    | Commit(tx: Tx)
    | Discard(tx: Tx)

  /** The sequencer executes a transaction only against the current nonce, and an
      Initialize only on a default account, a Transfer only on an owned one. */
  predicate Live(s: State, p: Tx) {
    p in s.pending && p.nonce == s.Nonce() && (p.kind.Initialize? <==> !s.owned)
  }

  function AfterInit(job: Job, claimed: Option<Tx>): Pc { if job.transfer then Ready else Done(claimed) }

  function NextPc(s: State, t: Task): Pc {
    match t.pc
    case Gating => Start
    case Start => if !t.job.needInit then Ready else if s.owned then AfterInit(t.job, None) else Unowned
    case Unowned => InitRead(s.Nonce())
    case InitSeen(tx) => if s.owned then AfterInit(t.job, Some(tx)) else Done(None)
    case Ready => Watching(s.Nonce())
    case Watching(n) => Reread(n, s.Nonce())
    case _ => t.pc
  }

  predicate BeforeSubmit(pc: Pc) {
    pc.Gating? || pc.Start? || pc.Unowned? || pc.InitRead? || pc.InitSeen? || pc.Ready? || pc.Watching? || pc.Reread?
  }

  predicate Holds(pc: Pc) { !pc.Waiting? && !pc.Done? }

  /** The transaction a request would submit next, and the one it waits for. */
  function Outgoing(s: State, pc: Pc): Tx
    requires pc.InitRead? || pc.Reread?
  {
    if pc.InitRead? then Tx(Initialize, pc.n, s.serial) else Tx(Transfer, pc.m, s.serial)
  }

  function Watched(pc: Pc): nat
    requires pc.InitSent? || pc.Sent?
  {
    if pc.InitSent? then pc.tx.nonce else pc.n
  }

  predicate Enabled(s: State, a: Action) {
    match a
    case Arrive(r, job) => r !in s.tasks && (job.transfer || job.needInit) && (!job.needInit ==> s.owned)
    case Disconnect(r) => r in s.tasks && !s.tasks[r].pc.Done?
    case Acquire(r) => s.lock.None? && r in s.tasks && s.tasks[r].pc.Waiting?
    case Advance(r) => r in s.tasks && BeforeSubmit(s.tasks[r].pc) && !s.tasks[r].pc.InitRead? && !s.tasks[r].pc.Reread?
    case Fail(r) => r in s.tasks && BeforeSubmit(s.tasks[r].pc)
    case Submit(r, _, _) => r in s.tasks && (s.tasks[r].pc.InitRead? || s.tasks[r].pc.Reread?)
    case Confirm(r, how) =>
      && r in s.tasks && (s.tasks[r].pc.InitSent? || s.tasks[r].pc.Sent?)
      && (if how.ByHash? then s.tasks[r].pc.tx in s.committed else s.Nonce() > Watched(s.tasks[r].pc))
    case GiveUp(r) => r in s.tasks && (s.tasks[r].pc.InitSent? || s.tasks[r].pc.Sent?)
    case Commit(tx) => Live(s, tx)
    case Discard(tx) => tx in s.pending
  }

  /** Moves request `r` to `pc`; a finished section releases the lock. */
  function Goto(s: State, r: nat, pc: Pc): State
    requires r in s.tasks
  {
    s.(tasks := s.tasks[r := s.tasks[r].(pc := pc)], lock := if pc.Done? then None else s.lock)
  }

  function Apply(s: State, a: Action): State
    requires Enabled(s, a)
  {
    match a
    case Arrive(r, job) => s.(tasks := s.tasks[r := Task(job, true, Waiting)])
    case Disconnect(r) =>
      // Before detaching, the dropped future takes its lock guard with it.
      if s.tasks[r].pc.Waiting? then s.(tasks := s.tasks - {r})
      else if s.tasks[r].pc.Gating? then s.(tasks := s.tasks - {r}, lock := None)
      else s.(tasks := s.tasks[r := s.tasks[r].(attended := false)])
    case Acquire(r) => Goto(s, r, if s.tasks[r].job.transfer then Start else Gating).(lock := Some(r))
    case Advance(r) => Goto(s, r, NextPc(s, s.tasks[r]))
    case Fail(r) => Goto(s, r, Done(None))
    case Submit(r, delivered, reported) =>
      var pc := s.tasks[r].pc;
      var tx := Outgoing(s, pc);
      var next := if !reported then Done(None) else if pc.InitRead? then InitSent(tx) else Sent(tx, pc.n);
      Goto(s, r, next).(serial := s.serial + 1, pending := if delivered then s.pending + {tx} else s.pending)
    case Confirm(r, how) =>
      var pc := s.tasks[r].pc;
      Goto(s, r, if pc.InitSent? then InitSeen(pc.tx) else Done(Some(pc.tx)))
        .(confirmed := s.confirmed + {pc.tx},
          settled := if pc.tx in s.committed then s.settled + {pc.tx} else s.settled)
    case GiveUp(r) => Goto(s, r, Done(None))
    case Commit(tx) =>
      s.(committed := s.committed + [tx], pending := s.pending - {tx}, owned := s.owned || tx.kind.Initialize?)
    case Discard(tx) => s.(pending := s.pending - {tx})
  }

  /** A new server process: earlier submissions may still be pending. */
  predicate Initial(s: State) {
    && s.committed == [] && s.lock.None? && s.tasks == map[] && s.confirmed == {} && s.settled == {}
    && forall p :: p in s.pending ==> p.nonce <= s.Nonce() && p.serial < s.serial
  }

  // ----- what every step keeps -----

  /** The lock is held exactly by the one request inside a critical section. */
  predicate Exclusive(s: State) {
    && (forall r :: r in s.tasks && Holds(s.tasks[r].pc) ==> s.lock == Some(r))
    && (s.lock.Some? ==> s.lock.value in s.tasks && Holds(s.tasks[s.lock.value].pc))
  }

  /** One committed transaction per nonce, at most one Initialize among them. */
  predicate Ledger(s: State) {
    && (forall i :: 0 <= i < |s.committed| ==> s.committed[i].nonce == s.base + i && s.committed[i].serial < s.serial)
    && (forall i :: 0 <= i < |s.committed| && s.committed[i].kind.Initialize? ==> s.owned)
    && (forall i, j :: 0 <= i < j < |s.committed| ==>
        !(s.committed[i].kind.Initialize? && s.committed[j].kind.Initialize?))
    && (forall p :: p in s.pending ==> p.nonce <= s.Nonce() && p.serial < s.serial)
  }

  /** The nonce `x` lies above every settled confirmation and every confirmed
      Initialize, and not below any confirmed transaction. */
  predicate Above(s: State, x: nat) {
    && (forall c :: c in s.settled ==> c.nonce < x)
    && (forall c :: c in s.confirmed ==> c.nonce <= x && (c.kind.Initialize? ==> c.nonce < x))
  }

  /** While a transfer watches nonce `n`, at most one older submission can still
      commit: nothing pending carries a nonce above `n`. */
  predicate AtMostOneAhead(s: State, n: nat) {
    n <= s.Nonce() <= n + 1 && forall p :: p in s.pending ==> p.nonce <= n
  }

  predicate PcOk(s: State, t: Task) {
    && (!t.job.needInit ==> s.owned)
    && match t.pc
       case InitRead(n) => n <= s.Nonce() && Above(s, n)
       case InitSent(tx) => tx.nonce <= s.Nonce() && tx.serial < s.serial && tx.kind.Initialize?
       case Ready => s.owned
       case Watching(n) => s.owned && AtMostOneAhead(s, n) && Above(s, n)
       case Reread(n, m) => s.owned && AtMostOneAhead(s, n) && n <= m <= s.Nonce() && Above(s, m)
       case Sent(tx, n) => s.owned && n <= tx.nonce <= s.Nonce() && tx.serial < s.serial && tx.kind.Transfer?
       case _ => true
  }

  /** Settled transactions are confirmed and committed; confirmed ones were submitted. */
  predicate Confirmations(s: State) {
    && s.settled <= s.confirmed
    && (forall c :: c in s.settled ==> c in s.committed)
    && (forall c :: c in s.confirmed ==> c.serial < s.serial)
  }

  predicate Valid(s: State) {
    && Exclusive(s) && Ledger(s)
    && Confirmations(s) && Above(s, s.Nonce())
    && forall r :: r in s.tasks ==> PcOk(s, s.tasks[r])
  }

  lemma InitialValid(s: State)
    requires Initial(s)
    ensures Valid(s)
  {
  }

  lemma ExclusiveStep(s: State, a: Action)
    requires Exclusive(s) && Enabled(s, a)
    ensures Exclusive(Apply(s, a))
  {
  }

  lemma LedgerStep(s: State, a: Action)
    requires Valid(s) && Enabled(s, a)
    ensures Ledger(Apply(s, a))
  {
    if a.Commit? {
      var s' := Apply(s, a);
      assert forall i :: 0 <= i < |s.committed| ==> s'.committed[i] == s.committed[i];
    }
  }

  lemma CommittedBelow(s: State, tx: Tx)
    requires Ledger(s) && tx in s.committed
    ensures tx.nonce < s.Nonce()
  {
    var i :| 0 <= i < |s.committed| && s.committed[i] == tx;
  }

  lemma AboveStep(s: State, a: Action)
    requires Valid(s) && Enabled(s, a)
    ensures var s' := Apply(s, a); Confirmations(s') && Above(s', s'.Nonce())
  {
    if a.Confirm? && s.tasks[a.r].pc.tx in s.committed {
      CommittedBelow(s, s.tasks[a.r].pc.tx);
    }
  }

  /** A task outside its section needs nothing but that the account stays owned. */
  lemma OutsideTaskStep(s: State, a: Action, r: nat)
    requires Valid(s) && Enabled(s, a) && r in s.tasks && r in Apply(s, a).tasks
    requires Apply(s, a).tasks[r].pc == s.tasks[r].pc && !Holds(s.tasks[r].pc)
    ensures PcOk(Apply(s, a), Apply(s, a).tasks[r])
  {
    assert PcOk(s, s.tasks[r]);
  }

  lemma SameOrder(s: State, t: State, x: Task, y: Task)
    requires PcOk(s, x) && y.pc == x.pc && y.job == x.job && t.pending <= s.pending
    requires t.base == s.base && t.committed == s.committed && t.owned == s.owned && t.serial == s.serial
    requires t.settled == s.settled && t.confirmed == s.confirmed
    ensures PcOk(t, y)
  {
  }

  /** A task that does not move stays in order: only a confirmation raises what its
      nonce must exceed, and then no other request holds one. */
  lemma IdleTaskStep(s: State, a: Action, r: nat)
    requires Valid(s) && Enabled(s, a) && !a.Commit? && r in s.tasks && r in Apply(s, a).tasks
    requires Apply(s, a).tasks[r].pc == s.tasks[r].pc && Holds(s.tasks[r].pc)
    ensures PcOk(Apply(s, a), Apply(s, a).tasks[r])
  {
    assert !a.Submit? && !a.Confirm?;
    SameOrder(s, Apply(s, a), s.tasks[r], Apply(s, a).tasks[r]);
  }

  lemma CommitTaskStep(s: State, tx: Tx, r: nat)
    requires Valid(s) && Enabled(s, Commit(tx)) && r in s.tasks
    ensures PcOk(Apply(s, Commit(tx)), s.tasks[r])
  {
    assert PcOk(s, s.tasks[r]);
  }

  lemma MovingTaskStep(s: State, a: Action, r: nat)
    requires Valid(s) && Enabled(s, a) && r in s.tasks && !a.Commit? && !a.Discard? && !a.Confirm? && a.r == r
    requires r in Apply(s, a).tasks
    requires Apply(s, a).tasks[r].pc != s.tasks[r].pc
    ensures PcOk(Apply(s, a), Apply(s, a).tasks[r])
  {
    assert PcOk(s, s.tasks[r]);
  }

  lemma ConfirmTaskStep(s: State, r: nat, how: How)
    requires Valid(s) && Enabled(s, Confirm(r, how))
    ensures PcOk(Apply(s, Confirm(r, how)), Apply(s, Confirm(r, how)).tasks[r])
  {
    assert PcOk(s, s.tasks[r]);
  }

  lemma TaskStep(s: State, a: Action, r: nat)
    requires Valid(s) && Enabled(s, a) && r in Apply(s, a).tasks
    ensures PcOk(Apply(s, a), Apply(s, a).tasks[r])
  {
    if r in s.tasks {
      if a.Commit? {
        CommitTaskStep(s, a.tx, r);
      } else if Apply(s, a).tasks[r].pc == s.tasks[r].pc {
        if Holds(s.tasks[r].pc) { IdleTaskStep(s, a, r); } else { OutsideTaskStep(s, a, r); }
      } else if a.Confirm? {
        ConfirmTaskStep(s, r, a.how);
      } else {
        MovingTaskStep(s, a, r);
      }
    }
  }

  lemma StepKeeps(s: State, a: Action)
    requires Valid(s) && Enabled(s, a)
    ensures Valid(Apply(s, a))
  {
    ExclusiveStep(s, a);
    LedgerStep(s, a);
    AboveStep(s, a);
    forall r | r in Apply(s, a).tasks ensures PcOk(Apply(s, a), Apply(s, a).tasks[r]) { TaskStep(s, a, r); }
  }

  predicate Runs(s: State, acts: seq<Action>)
    decreases |acts|
  {
    acts == [] || (Enabled(s, acts[0]) && Runs(Apply(s, acts[0]), acts[1..]))
  }

  function After(s: State, acts: seq<Action>): State
    requires Runs(s, acts)
    decreases |acts|
  {
    if acts == [] then s else After(Apply(s, acts[0]), acts[1..])
  }

  lemma {:induction false} RunKeeps(s: State, acts: seq<Action>)
    requires Valid(s) && Runs(s, acts)
    ensures Valid(After(s, acts))
    decreases |acts|
  {
    if acts != [] {
      StepKeeps(s, acts[0]);
      RunKeeps(Apply(s, acts[0]), acts[1..]);
    }
  }

  /** In every run: one critical section at a time, one committed transaction per
      nonce, and every submission above each confirmed transaction that committed. */
  lemma SignedWritesAreSerial(s: State, acts: seq<Action>, a: Action)
    requires Initial(s) && Runs(s, acts) && Enabled(After(s, acts), a)
    ensures var t := After(s, acts);
      && (forall r, q :: r in t.tasks && q in t.tasks && Holds(t.tasks[r].pc) && Holds(t.tasks[q].pc) ==> r == q)
      && (forall i, j :: 0 <= i < j < |t.committed| ==> t.committed[i].nonce < t.committed[j].nonce)
      && (a.Submit? ==> Above(t, Outgoing(t, t.tasks[a.r].pc).nonce))
  {
    InitialValid(s);
    RunKeeps(s, acts);
    if a.Submit? {
      var t := After(s, acts);
      assert PcOk(t, t.tasks[a.r]);
    }
  }

  // ----- when a nonce advance proves the transaction committed -----

  predicate Quiet(s: State) { forall p :: p in s.pending ==> !Live(s, p) }

  /** What request `r` has reported as committed. */
  function Claimed(s: State, r: nat): Option<Tx> {
    if r !in s.tasks then None
    else match s.tasks[r].pc
      case InitSeen(tx) => Some(tx)
      case Done(claimed) => claimed
      case _ => None
  }

  /** The watched transaction has committed, or nothing else can move the nonce. */
  predicate Sole(s: State, tx: Tx) {
    if tx in s.committed then Quiet(s)
    else s.Nonce() == tx.nonce && forall p :: p in s.pending && Live(s, p) ==> p == tx
  }

  /** The section of `r` began with nothing live, and all it reported is true. */
  predicate CleanFor(s: State, r: nat) {
    && r in s.tasks
    && match s.tasks[r].pc
       case Waiting => false
       case Gating => false
       case InitRead(n) => Quiet(s) && n == s.Nonce()
       case InitSent(tx) => Sole(s, tx)
       case InitSeen(tx) => Quiet(s) && tx in s.committed
       case Watching(n) => Quiet(s) && n == s.Nonce()
       case Reread(n, m) => Quiet(s) && n == m == s.Nonce()
       case Sent(tx, n) => n == tx.nonce && Sole(s, tx)
       case Done(claimed) => claimed.Some? ==> claimed.value in s.committed
       case _ => Quiet(s)
  }

  lemma FreshNotCommitted(s: State, tx: Tx)
    requires Ledger(s) && tx.serial >= s.serial
    ensures tx !in s.committed && tx !in s.pending
  {
  }

  /** After any commit every other pending transaction is stale. */
  lemma CommitSilences(s: State, tx: Tx)
    requires Ledger(s) && Live(s, tx)
    ensures Quiet(Apply(s, Commit(tx)))
  {
  }

  lemma CleanOwnStep(s: State, a: Action, r: nat)
    requires Valid(s) && CleanFor(s, r) && Enabled(s, a) && !a.Commit? && !a.Discard? && a.r == r
    ensures CleanFor(Apply(s, a), r)
  {
    if a.Submit? {
      FreshNotCommitted(s, Outgoing(s, s.tasks[r].pc));
    }
    if a.Confirm? && s.tasks[r].pc.tx in s.committed {
      CommittedBelow(s, s.tasks[r].pc.tx);
    }
  }

  lemma CleanChainStep(s: State, a: Action, r: nat)
    requires Valid(s) && CleanFor(s, r) && Enabled(s, a) && (a.Commit? || a.Discard?)
    ensures CleanFor(Apply(s, a), r)
  {
    if a.Commit? { CommitSilences(s, a.tx); }
  }

  lemma CleanOtherStep(s: State, a: Action, r: nat)
    requires Valid(s) && CleanFor(s, r) && Enabled(s, a) && !a.Commit? && !a.Discard? && a.r != r
    ensures CleanFor(Apply(s, a), r)
  {
    assert Holds(s.tasks[r].pc) ==> a.Arrive? || a.Disconnect?;
  }

  lemma CleanStep(s: State, a: Action, r: nat)
    requires Valid(s) && CleanFor(s, r) && Enabled(s, a)
    ensures CleanFor(Apply(s, a), r)
  {
    if a.Commit? || a.Discard? {
      CleanChainStep(s, a, r);
    } else if a.r == r {
      CleanOwnStep(s, a, r);
    } else {
      CleanOtherStep(s, a, r);
    }
  }

  lemma {:induction false} CleanRun(s: State, acts: seq<Action>, r: nat)
    requires Valid(s) && CleanFor(s, r) && Runs(s, acts)
    ensures CleanFor(After(s, acts), r)
    decreases |acts|
  {
    if acts != [] {
      StepKeeps(s, acts[0]);
      CleanStep(s, acts[0], r);
      CleanRun(Apply(s, acts[0]), acts[1..], r);
    }
  }

  /** Whatever happens next, all that `r` reports as committed has committed. */
  ghost predicate Trusted(s: State, r: nat) {
    forall acts :: Runs(s, acts) && Claimed(After(s, acts), r).Some? ==>
      Claimed(After(s, acts), r).value in After(s, acts).committed
  }

  lemma RunsStep(s: State, a: Action, rest: seq<Action>)
    requires Enabled(s, a) && Runs(Apply(s, a), rest)
    ensures Runs(s, [a] + rest) && After(s, [a] + rest) == After(Apply(s, a), rest)
  {
    assert ([a] + rest)[1..] == rest;
  }

  lemma ThreeSteps(s: State, a: Action, b: Action, c: Action)
    requires Enabled(s, a)
    requires var s1 := Apply(s, a); Enabled(s1, b) && Enabled(Apply(s1, b), c)
    ensures Runs(s, [a, b, c]) && After(s, [a, b, c]) == Apply(Apply(Apply(s, a), b), c)
  {
    var s1 := Apply(s, a);
    RunsStep(Apply(s1, b), c, []);
    RunsStep(s1, b, [c]);
    RunsStep(s, a, [b, c]);
  }

  /** A transfer that watches a nonce already passed is reported committed at once. */
  lemma StaleWatch(s: State, r: nat)
    requires Valid(s) && r in s.tasks && s.tasks[r].pc.Watching? && s.tasks[r].pc.n < s.Nonce()
    ensures var acts := [Advance(r), Submit(r, true, true), Confirm(r, ByNonce)];
      && Runs(s, acts) && Claimed(After(s, acts), r).Some?
      && Claimed(After(s, acts), r).value !in After(s, acts).committed
  {
    var s1 := Apply(s, Advance(r));
    var s2 := Apply(s1, Submit(r, true, true));
    assert s1.tasks[r].pc == Reread(s.tasks[r].pc.n, s.Nonce());
    assert s2.tasks[r].pc == Sent(Tx(Transfer, s.Nonce(), s.serial), s.tasks[r].pc.n) && s2.committed == s.committed;
    ThreeSteps(s, Advance(r), Submit(r, true, true), Confirm(r, ByNonce));
    FreshNotCommitted(s, Tx(Transfer, s.Nonce(), s.serial));
  }

  /** A transfer that starts while an older submission is live can be reported
      committed by that older submission's nonce advance. */
  lemma TransferOvertaken(s: State, r: nat, p: Tx) returns (acts: seq<Action>)
    requires Valid(s) && r in s.tasks && s.tasks[r].pc.Ready? && Live(s, p)
    ensures Runs(s, acts) && Claimed(After(s, acts), r).Some?
    ensures Claimed(After(s, acts), r).value !in After(s, acts).committed
  {
    var rest := [Advance(r), Submit(r, true, true), Confirm(r, ByNonce)];
    var s1 := Apply(s, Advance(r));
    var s2 := Apply(s1, Commit(p));
    StepKeeps(s, Advance(r));
    StepKeeps(s1, Commit(p));
    StaleWatch(s2, r);
    RunsStep(s1, Commit(p), rest);
    RunsStep(s, Advance(r), [Commit(p)] + rest);
    acts := [Advance(r)] + ([Commit(p)] + rest);
  }

  /** So can an Initialize. */
  lemma InitializeOvertaken(s: State, r: nat, p: Tx) returns (acts: seq<Action>)
    requires Valid(s) && r in s.tasks && s.tasks[r].pc.Unowned? && Live(s, p)
    ensures Runs(s, acts) && Claimed(After(s, acts), r).Some?
    ensures Claimed(After(s, acts), r).value !in After(s, acts).committed
  {
    var rest := [Submit(r, true, true), Commit(p), Confirm(r, ByNonce)];
    var s1 := Apply(s, Advance(r));
    ThreeSteps(s1, Submit(r, true, true), Commit(p), Confirm(r, ByNonce));
    RunsStep(s, Advance(r), rest);
    acts := [Advance(r)] + rest;
    FreshNotCommitted(s, Tx(Initialize, s.Nonce(), s.serial));
    assert p != Tx(Initialize, s.Nonce(), s.serial);
  }

  /** A confirmation by nonce advance can be trusted exactly if no earlier
      submission is still live when the nonce is about to be read. */
  lemma TrustedIff(s: State, r: nat)
    requires Valid(s) && r in s.tasks && (s.tasks[r].pc.Ready? || s.tasks[r].pc.Unowned?)
    ensures Trusted(s, r) <==> Quiet(s)
  {
    if Quiet(s) {
      forall acts | Runs(s, acts) && Claimed(After(s, acts), r).Some?
        ensures Claimed(After(s, acts), r).value in After(s, acts).committed
      {
        CleanRun(s, acts, r);
      }
    } else {
      var p :| p in s.pending && Live(s, p);
      if s.tasks[r].pc.Ready? {
        var acts := TransferOvertaken(s, r, p);
      } else {
        var acts := InitializeOvertaken(s, r, p);
      }
    }
  }

  /** A section entered with nothing live never reports a false confirmation, be it
      for its Initialize or its Transfer. */
  lemma QuietSectionIsTrue(s: State, r: nat, acts: seq<Action>)
    requires Valid(s) && r in s.tasks && s.tasks[r].pc.Start? && Quiet(s) && Runs(s, acts)
    ensures var t := After(s, acts); Claimed(t, r).Some? ==> Claimed(t, r).value in t.committed
  {
    CleanRun(s, acts, r);
  }

  // ----- when a later submission uses a strictly larger nonce -----

  /** The nonce a request has read for the transaction it is about to submit. */
  predicate HasRead(pc: Pc, x: nat) { (pc.InitRead? && pc.n == x) || (pc.Reread? && pc.m == x) }

  /** Once `tx` is confirmed every nonce read is above its own; until then it is
      watched by its own nonce. */
  predicate StrictFor(s: State, tx: Tx) {
    && (tx in s.confirmed ==>
          tx.nonce < s.Nonce() && forall q, x :: q in s.tasks && HasRead(s.tasks[q].pc, x) ==> tx.nonce < x)
    && forall q :: q in s.tasks && s.tasks[q].pc.Sent? && s.tasks[q].pc.tx == tx ==> s.tasks[q].pc.n == tx.nonce
  }

  /** Confirming a transaction that is watched by its own nonce. */
  lemma ConfirmStrict(s: State, r: nat, how: How)
    requires Valid(s) && Enabled(s, Confirm(r, how)) && StrictFor(s, s.tasks[r].pc.tx)
    ensures StrictFor(Apply(s, Confirm(r, how)), s.tasks[r].pc.tx)
  {
    var tx := s.tasks[r].pc.tx;
    if tx in s.committed { CommittedBelow(s, tx); }
    assert tx.nonce < s.Nonce();
  }

  lemma StrictStep(s: State, a: Action, tx: Tx)
    requires Valid(s) && Enabled(s, a) && tx.serial < s.serial && StrictFor(s, tx)
    ensures StrictFor(Apply(s, a), tx)
  {
    if a.Confirm? && s.tasks[a.r].pc.tx == tx {
      ConfirmStrict(s, a.r, a.how);
    }
  }

  lemma {:induction false} StrictRun(s: State, acts: seq<Action>, tx: Tx)
    requires Valid(s) && Runs(s, acts) && tx.serial < s.serial && StrictFor(s, tx)
    ensures StrictFor(After(s, acts), tx)
    decreases |acts|
  {
    if acts != [] {
      StepKeeps(s, acts[0]);
      StrictStep(s, acts[0], tx);
      StrictRun(Apply(s, acts[0]), acts[1..], tx);
    }
  }

  /** An Initialize is always watched by its own nonce, a Transfer if the two nonce
      reads agreed. */
  lemma SubmittedStrict(s: State, r: nat, delivered: bool, reported: bool)
    requires Valid(s) && Enabled(s, Submit(r, delivered, reported))
    requires s.tasks[r].pc.Reread? ==> s.tasks[r].pc.n == s.tasks[r].pc.m
    ensures StrictFor(Apply(s, Submit(r, delivered, reported)), Outgoing(s, s.tasks[r].pc))
  {
  }

  /** In this run every transfer was submitted with the nonce it is watched by. */
  predicate ReadsAgree(s: State, acts: seq<Action>)
    requires Runs(s, acts)
    decreases |acts|
  {
    acts == [] || (
      && (acts[0].Submit? && s.tasks[acts[0].r].pc.Reread? ==> s.tasks[acts[0].r].pc.n == s.tasks[acts[0].r].pc.m)
      && ReadsAgree(Apply(s, acts[0]), acts[1..]))
  }

  ghost predicate AllStrict(s: State) { forall tx: Tx :: tx.serial < s.serial ==> StrictFor(s, tx) }

  lemma AllStrictStep(s: State, a: Action)
    requires Valid(s) && Enabled(s, a) && AllStrict(s)
    requires a.Submit? && s.tasks[a.r].pc.Reread? ==> s.tasks[a.r].pc.n == s.tasks[a.r].pc.m
    ensures AllStrict(Apply(s, a))
  {
    var s' := Apply(s, a);
    forall tx: Tx | tx.serial < s'.serial ensures StrictFor(s', tx) {
      if tx.serial < s.serial {
        StrictStep(s, a, tx);
      } else if tx == Outgoing(s, s.tasks[a.r].pc) {
        SubmittedStrict(s, a.r, a.delivered, a.reported);
      } else {
        OnlyOutgoing(s, a, tx);
      }
    }
  }

  /** Nothing is known of a serial number before its transaction is submitted. */
  lemma OnlyOutgoing(s: State, a: Action, tx: Tx)
    requires Valid(s) && Enabled(s, a) && a.Submit? && tx.serial == s.serial && tx != Outgoing(s, s.tasks[a.r].pc)
    ensures StrictFor(Apply(s, a), tx)
  {
  }

  lemma {:induction false} AllStrictRun(s: State, acts: seq<Action>)
    requires Valid(s) && AllStrict(s) && Runs(s, acts) && ReadsAgree(s, acts)
    ensures AllStrict(After(s, acts))
    decreases |acts|
  {
    if acts != [] {
      StepKeeps(s, acts[0]);
      AllStrictStep(s, acts[0]);
      AllStrictRun(Apply(s, acts[0]), acts[1..]);
    }
  }

  /** A submission uses a strictly larger nonce than every transaction confirmed
      before it, in every run whose transfers read the same nonce twice. */
  lemma SubmissionsGrow(s: State, acts: seq<Action>, a: Action, c: Tx)
    requires Initial(s) && Runs(s, acts) && ReadsAgree(s, acts)
    requires Enabled(After(s, acts), a) && a.Submit? && c in After(s, acts).confirmed
    ensures c.nonce < Outgoing(After(s, acts), After(s, acts).tasks[a.r].pc).nonce
  {
    InitialValid(s);
    RunKeeps(s, acts);
    AllStrictRun(s, acts);
    var t := After(s, acts);
    assert StrictFor(t, c) && HasRead(t.tasks[a.r].pc, Outgoing(t, t.tasks[a.r].pc).nonce);
  }

  /** Whatever happens next, if `tx` is confirmed then later submissions exceed it. */
  ghost predicate NeverReused(s: State, tx: Tx) {
    forall acts, r ::
      Runs(s, acts) && Enabled(After(s, acts), Submit(r, true, true)) && tx in After(s, acts).confirmed ==>
        tx.nonce < Outgoing(After(s, acts), After(s, acts).tasks[r].pc).nonce
  }

  /** A new transfer on a free lock gets to submit with the current nonce. */
  lemma NewTransfer(s: State, q: nat) returns (acts: seq<Action>)
    requires Valid(s) && s.lock.None? && s.owned && q !in s.tasks
    ensures Runs(s, acts)
    ensures var t := After(s, acts);
      t.confirmed == s.confirmed && q in t.tasks && t.tasks[q].pc == Reread(s.Nonce(), s.Nonce())
  {
    var s1 := Apply(s, Arrive(q, Job(true, false)));
    var s2 := Apply(s1, Acquire(q));
    var s3 := Apply(s2, Advance(q));
    ThreeSteps(s2, Advance(q), Advance(q), Advance(q));
    var tail := [Advance(q), Advance(q), Advance(q)];
    RunsStep(s1, Acquire(q), tail);
    RunsStep(s, Arrive(q, Job(true, false)), [Acquire(q)] + tail);
    acts := [Arrive(q, Job(true, false))] + ([Acquire(q)] + tail);
  }

  /** The run in which two submissions share a nonce: an older transaction committed
      between the two nonce reads of the first transfer, which then confirms at once. */
  lemma ConfirmedNonceReused(s: State, r: nat, q: nat, delivered: bool) returns (acts: seq<Action>)
    requires Valid(s) && r in s.tasks && s.tasks[r].pc.Reread? && s.tasks[r].pc.n < s.tasks[r].pc.m && q !in s.tasks
    ensures var s1 := Apply(s, Submit(r, delivered, true)); var tx := Outgoing(s, s.tasks[r].pc);
      && Runs(s1, acts) && Enabled(After(s1, acts), Submit(q, true, true))
      && tx in After(s1, acts).confirmed && Outgoing(After(s1, acts), After(s1, acts).tasks[q].pc).nonce == tx.nonce
  {
    assert PcOk(s, s.tasks[r]);
    var s1 := Apply(s, Submit(r, delivered, true));
    StepKeeps(s, Submit(r, delivered, true));
    StepKeeps(s1, Confirm(r, ByNonce));
    var more := NewTransfer(Apply(s1, Confirm(r, ByNonce)), q);
    RunsStep(s1, Confirm(r, ByNonce), more);
    acts := [Confirm(r, ByNonce)] + more;
  }

  /** The nonce of a submission is never used again after its confirmation exactly if
      it is the nonce it is watched by: always for an Initialize, which reads once,
      and for a Transfer whose two reads agreed. */
  lemma NeverReusedIff(s: State, r: nat, q: nat, delivered: bool)
    requires Valid(s) && r in s.tasks && (s.tasks[r].pc.Reread? || s.tasks[r].pc.InitRead?) && q !in s.tasks
    ensures NeverReused(Apply(s, Submit(r, delivered, true)), Outgoing(s, s.tasks[r].pc)) <==>
      (s.tasks[r].pc.Reread? ==> s.tasks[r].pc.n == s.tasks[r].pc.m)
  {
    assert PcOk(s, s.tasks[r]);
    var s1, tx := Apply(s, Submit(r, delivered, true)), Outgoing(s, s.tasks[r].pc);
    if s.tasks[r].pc.Reread? && s.tasks[r].pc.n != s.tasks[r].pc.m {
      var acts := ConfirmedNonceReused(s, r, q, delivered);
    } else {
      SubmittedStrict(s, r, delivered, true);
      StepKeeps(s, Submit(r, delivered, true));
      forall acts, p |
        Runs(s1, acts) && Enabled(After(s1, acts), Submit(p, true, true)) && tx in After(s1, acts).confirmed
        ensures tx.nonce < Outgoing(After(s1, acts), After(s1, acts).tasks[p].pc).nonce
      {
        StrictRun(s1, acts, tx);
        assert HasRead(After(s1, acts).tasks[p].pc, Outgoing(After(s1, acts), After(s1, acts).tasks[p].pc).nonce);
      }
    }
  }

  // ----- quiet runs -----

  /** Every nonce that was read for a submission was read with nothing live. */
  predicate QuietReads(s: State, acts: seq<Action>)
    requires Runs(s, acts)
    decreases |acts|
  {
    acts == [] || (
      && (acts[0].Advance? && (s.tasks[acts[0].r].pc.Ready? || s.tasks[acts[0].r].pc.Unowned?) ==> Quiet(s))
      && QuietReads(Apply(s, acts[0]), acts[1..]))
  }

  predicate Committing(pc: Pc) {
    pc.InitRead? || pc.InitSent? || pc.InitSeen? || pc.Watching? || pc.Reread? || pc.Sent?
  }

  /** All that was confirmed has committed, and whoever read a nonce read it in peace. */
  predicate AllTrue(s: State) {
    s.confirmed <= s.settled && forall r :: r in s.tasks && Committing(s.tasks[r].pc) ==> CleanFor(s, r)
  }

  lemma AllTrueStep(s: State, a: Action)
    requires Valid(s) && Enabled(s, a) && AllTrue(s)
    requires a.Advance? && (s.tasks[a.r].pc.Ready? || s.tasks[a.r].pc.Unowned?) ==> Quiet(s)
    ensures AllTrue(Apply(s, a))
  {
    var s' := Apply(s, a);
    forall r | r in s'.tasks && Committing(s'.tasks[r].pc) ensures CleanFor(s', r) {
      if Committing(s.tasks[r].pc) { CleanStep(s, a, r); }
    }
    if a.Confirm? {
      assert CleanFor(s, a.r);
      CleanStep(s, a, a.r);
    }
  }

  lemma {:induction false} AllTrueRun(s: State, acts: seq<Action>)
    requires Valid(s) && AllTrue(s) && Runs(s, acts) && QuietReads(s, acts)
    ensures AllTrue(After(s, acts))
    decreases |acts|
  {
    if acts != [] {
      StepKeeps(s, acts[0]);
      AllTrueStep(s, acts[0]);
      AllTrueRun(Apply(s, acts[0]), acts[1..]);
    }
  }

  /** In every run whose nonces were read with nothing live, every confirmation is
      true and every submission's nonce exceeds every confirmed one's. */
  lemma QuietRunIsTrueAndStrict(s: State, acts: seq<Action>, a: Action)
    requires Initial(s) && Runs(s, acts) && QuietReads(s, acts) && Enabled(After(s, acts), a)
    ensures forall c :: c in After(s, acts).confirmed ==> c in After(s, acts).committed
    ensures a.Submit? ==>
      forall c :: c in After(s, acts).confirmed ==>
        c.nonce < Outgoing(After(s, acts), After(s, acts).tasks[a.r].pc).nonce
  {
    InitialValid(s);
    RunKeeps(s, acts);
    AllTrueRun(s, acts);
    var t := After(s, acts);
    if a.Submit? { assert PcOk(t, t.tasks[a.r]); }
  }

  // ----- the failing runs, from the start -----

  lemma {:induction false} RunsConcat(s: State, a: seq<Action>, b: seq<Action>)
    requires Runs(s, a) && Runs(After(s, a), b)
    ensures Runs(s, a + b) && After(s, a + b) == After(After(s, a), b)
    decreases |a|
  {
    if a == [] {
      assert a + b == b;
    } else {
      RunsConcat(Apply(s, a[0]), a[1..], b);
      assert (a + b)[1..] == a[1..] + b;
    }
  }

  /** A process that starts while one submission of the last one is still pending. */
  function Leftover(base: nat, kind: Kind): State {
    State(base, kind.Transfer?, [], {Tx(kind, base, 0)}, 1, None, map[], {}, {})
  }

  function FirstSteps(needInit: bool): seq<Action> { [Arrive(0, Job(true, needInit)), Acquire(0), Advance(0)] }

  /** Its first request comes to read its nonce with that submission live. */
  lemma LeftoverIsLive(base: nat, kind: Kind)
    ensures var s := Leftover(base, kind); var acts := FirstSteps(kind.Initialize?);
      && Initial(s) && Runs(s, acts) && Valid(After(s, acts)) && Live(After(s, acts), Tx(kind, base, 0))
      && After(s, acts).Nonce() == base && After(s, acts).tasks.Keys == {0}
      && After(s, acts).tasks[0].pc == if kind.Transfer? then Ready else Unowned
  {
    var s, acts := Leftover(base, kind), FirstSteps(kind.Initialize?);
    InitialValid(s);
    ThreeSteps(s, acts[0], acts[1], acts[2]);
    RunKeeps(s, acts);
  }

  /** A false confirmation, of a Transfer or an Initialize, in a run from the start. */
  lemma OvertakenFromStart(base: nat, kind: Kind) returns (acts: seq<Action>)
    ensures var s := Leftover(base, kind);
      && Initial(s) && Runs(s, acts) && Claimed(After(s, acts), 0).Some?
      && Claimed(After(s, acts), 0).value !in After(s, acts).committed
  {
    var s, first := Leftover(base, kind), FirstSteps(kind.Initialize?);
    LeftoverIsLive(base, kind);
    var more;
    if kind.Transfer? {
      more := TransferOvertaken(After(s, first), 0, Tx(kind, base, 0));
    } else {
      more := InitializeOvertaken(After(s, first), 0, Tx(kind, base, 0));
    }
    RunsConcat(s, first, more);
    acts := first + more;
  }

  lemma CommitBetweenReads(s: State, r: nat, p: Tx)
    requires r in s.tasks && s.tasks[r].pc.Ready? && Live(s, p)
    ensures var acts := [Advance(r), Commit(p), Advance(r)];
      && Runs(s, acts) && After(s, acts).tasks.Keys == s.tasks.Keys
      && After(s, acts).tasks[r].pc == Reread(s.Nonce(), s.Nonce() + 1)
  {
    ThreeSteps(s, Advance(r), Commit(p), Advance(r));
  }

  /** Between the two nonce reads of that first transfer the old one commits. */
  lemma ReadsDiffer(base: nat) returns (acts: seq<Action>)
    ensures var s := Leftover(base, Transfer);
      && Initial(s) && Runs(s, acts) && After(s, acts).tasks.Keys == {0}
      && After(s, acts).tasks[0].pc == Reread(base, base + 1)
  {
    var s, first := Leftover(base, Transfer), FirstSteps(false);
    LeftoverIsLive(base, Transfer);
    var p := Tx(Transfer, base, 0);
    CommitBetweenReads(After(s, first), 0, p);
    RunsConcat(s, first, [Advance(0), Commit(p), Advance(0)]);
    acts := first + [Advance(0), Commit(p), Advance(0)];
  }

  /** A confirmed nonce used again, in a run from the start. */
  lemma NonceReusedFromStart(base: nat) returns (acts: seq<Action>, c: Tx)
    ensures var s := Leftover(base, Transfer);
      && Initial(s) && Runs(s, acts) && Enabled(After(s, acts), Submit(1, true, true)) && c in After(s, acts).confirmed
      && Outgoing(After(s, acts), After(s, acts).tasks[1].pc).nonce == c.nonce
  {
    var s := Leftover(base, Transfer);
    var first := ReadsDiffer(base);
    var t := After(s, first);
    InitialValid(s);
    RunKeeps(s, first);
    c := Outgoing(t, t.tasks[0].pc);
    var more := ConfirmedNonceReused(t, 0, 1, true);
    RunsStep(t, Submit(0, true, true), more);
    RunsConcat(s, first, [Submit(0, true, true)] + more);
    acts := first + ([Submit(0, true, true)] + more);
  }

  // ----- undisturbed requests complete -----

  lemma InitializeSent(s: State, q: nat)
    requires s.lock == Some(q) && q in s.tasks && s.tasks[q].pc.Start? && s.tasks[q].job.needInit && !s.owned
    ensures var tx := Tx(Initialize, s.Nonce(), s.serial);
      var acts := [Advance(q), Advance(q), Submit(q, true, true)];
      && Runs(s, acts)
      && After(s, acts) == s.(tasks := s.tasks[q := s.tasks[q].(pc := InitSent(tx))], serial := s.serial + 1,
                              pending := s.pending + {tx})
  {
    ThreeSteps(s, Advance(q), Advance(q), Submit(q, true, true));
  }

  lemma InitializeFound(s: State, q: nat, tx: Tx)
    requires s.lock == Some(q) && q in s.tasks && s.tasks[q].pc == InitSent(tx) && Live(s, tx) && tx.kind.Initialize?
    ensures var acts := [Commit(tx), Confirm(q, ByHash), Advance(q)];
      && Runs(s, acts)
      && var t := After(s, acts);
         && t.owned && t.committed == s.committed + [tx] && t.lock == (if s.tasks[q].job.transfer then s.lock else None)
         && t.tasks.Keys == s.tasks.Keys && t.serial == s.serial && t.base == s.base
         && t.tasks[q].pc == (if s.tasks[q].job.transfer then Ready else Done(Some(tx)))
  {
    ThreeSteps(s, Commit(tx), Confirm(q, ByHash), Advance(q));
  }

  /** Advancing to the read nonce, submitting it, and having it committed and found. */
  lemma InitializeDone(s: State, q: nat)
    requires s.lock == Some(q) && q in s.tasks && s.tasks[q].pc.Start? && s.tasks[q].job.needInit && !s.owned
    ensures var tx := Tx(Initialize, s.Nonce(), s.serial);
      var acts := [Advance(q), Advance(q), Submit(q, true, true), Commit(tx), Confirm(q, ByHash), Advance(q)];
      && Runs(s, acts)
      && var t := After(s, acts);
         && t.owned && t.committed == s.committed + [tx] && t.lock == (if s.tasks[q].job.transfer then s.lock else None)
         && t.tasks.Keys == s.tasks.Keys && t.serial == s.serial + 1 && t.base == s.base
         && t.tasks[q].pc == (if s.tasks[q].job.transfer then Ready else Done(Some(tx)))
  {
    var tx := Tx(Initialize, s.Nonce(), s.serial);
    var out := [Advance(q), Advance(q), Submit(q, true, true)];
    var back := [Commit(tx), Confirm(q, ByHash), Advance(q)];
    InitializeSent(s, q);
    InitializeFound(After(s, out), q, tx);
    RunsConcat(s, out, back);
    assert out + back == [Advance(q), Advance(q), Submit(q, true, true), Commit(tx), Confirm(q, ByHash), Advance(q)];
  }

  lemma TransferDone(s: State, q: nat)
    requires s.lock == Some(q) && q in s.tasks && s.tasks[q].pc.Ready? && s.owned
    ensures var tx := Tx(Transfer, s.Nonce(), s.serial);
      var acts := [Advance(q), Advance(q), Submit(q, true, true), Commit(tx), Confirm(q, ByHash)];
      && Runs(s, acts)
      && var t := After(s, acts);
         t.committed == s.committed + [tx] && t.lock.None? && q in t.tasks && t.tasks[q].pc == Done(Some(tx))
  {
    var tx := Tx(Transfer, s.Nonce(), s.serial);
    var s1 := Apply(s, Advance(q));
    var s2 := Apply(s1, Advance(q));
    var s3 := Apply(s2, Submit(q, true, true));
    assert s3.tasks[q].pc == Sent(tx, s.Nonce()) && tx in s3.pending;
    ThreeSteps(s2, Submit(q, true, true), Commit(tx), Confirm(q, ByHash));
    var tail := [Submit(q, true, true), Commit(tx), Confirm(q, ByHash)];
    RunsStep(s1, Advance(q), tail);
    RunsStep(s, Advance(q), [Advance(q)] + tail);
    assert [Advance(q), Advance(q), Submit(q, true, true), Commit(tx), Confirm(q, ByHash)]
      == [Advance(q)] + ([Advance(q)] + tail);
  }

  lemma AcquireFree(s: State, q: nat)
    requires s.lock.None? && q !in s.tasks
    ensures var acts := [Arrive(q, Job(true, true)), Acquire(q)];
      && Runs(s, acts)
      && After(s, acts) == s.(lock := Some(q), tasks := s.tasks[q := Task(Job(true, true), true, Start)])
  {
    RunsStep(Apply(s, Arrive(q, Job(true, true))), Acquire(q), []);
    RunsStep(s, Arrive(q, Job(true, true)), [Acquire(q)]);
  }

  lemma SectionCompletes(s: State, q: nat) returns (acts: seq<Action>)
    requires s.lock == Some(q) && q in s.tasks && s.tasks[q].pc.Start? && s.tasks[q].job == Job(true, true) && !s.owned
    ensures Runs(s, acts) && After(s, acts).lock.None?
    ensures var init, tx := Tx(Initialize, s.Nonce(), s.serial), Tx(Transfer, s.Nonce() + 1, s.serial + 1);
      After(s, acts).committed == s.committed + [init, tx] && Claimed(After(s, acts), q) == Some(tx)
  {
    var init := Tx(Initialize, s.Nonce(), s.serial);
    var first := [Advance(q), Advance(q), Submit(q, true, true), Commit(init), Confirm(q, ByHash), Advance(q)];
    InitializeDone(s, q);
    var t := After(s, first);
    var tx := Tx(Transfer, t.Nonce(), t.serial);
    var second := [Advance(q), Advance(q), Submit(q, true, true), Commit(tx), Confirm(q, ByHash)];
    TransferDone(t, q);
    RunsConcat(s, first, second);
    assert s.committed + [init] + [tx] == s.committed + [init, tx];
    acts := first + second;
  }

  /** A section that finds the account owned when it reads it again submits no
      Initialize: a transfer goes on and completes, a bare initialization just ends. */
  lemma OwnedSectionCompletes(s: State, q: nat) returns (acts: seq<Action>)
    requires s.lock == Some(q) && q in s.tasks && s.tasks[q].pc.Start? && s.owned
    requires s.tasks[q].job.transfer || s.tasks[q].job.needInit
    ensures Runs(s, acts) && After(s, acts).lock.None?
    ensures var tx := Tx(Transfer, s.Nonce(), s.serial);
      if s.tasks[q].job.transfer
      then After(s, acts).committed == s.committed + [tx] && Claimed(After(s, acts), q) == Some(tx)
      else After(s, acts).committed == s.committed && Claimed(After(s, acts), q) == None
  {
    RunsStep(s, Advance(q), []);
    acts := [Advance(q)];
    if s.tasks[q].job.transfer {
      var t := Apply(s, Advance(q));
      var rest := [Advance(q), Advance(q), Submit(q, true, true), Commit(Tx(Transfer, t.Nonce(), t.serial)),
        Confirm(q, ByHash)];
      TransferDone(t, q);
      RunsConcat(s, acts, rest);
      acts := acts + rest;
    }
  }

  /** A transfer on a default account that nothing disturbs initializes it, transfers,
      reports its own transaction and frees the lock. */
  lemma UndisturbedTransferCompletes(s: State, q: nat) returns (acts: seq<Action>)
    requires s.lock.None? && q !in s.tasks && !s.owned
    ensures var init, tx := Tx(Initialize, s.Nonce(), s.serial), Tx(Transfer, s.Nonce() + 1, s.serial + 1);
      && Runs(s, acts) && After(s, acts).committed == s.committed + [init, tx] && After(s, acts).lock.None?
      && Claimed(After(s, acts), q) == Some(tx)
  {
    AcquireFree(s, q);
    var first := [Arrive(q, Job(true, true)), Acquire(q)];
    var rest := SectionCompletes(After(s, first), q);
    RunsConcat(s, first, rest);
    acts := first + rest;
  }

  /** A bare initialization passes its gate under the lock and, undisturbed, initializes
      the account, reports its own transaction and frees the lock. */
  lemma UndisturbedInitializeCompletes(s: State, q: nat) returns (acts: seq<Action>)
    requires s.lock.None? && q !in s.tasks && !s.owned
    ensures var tx := Tx(Initialize, s.Nonce(), s.serial);
      && Runs(s, acts) && After(s, acts).committed == s.committed + [tx] && After(s, acts).lock.None?
      && After(s, acts).owned && Claimed(After(s, acts), q) == Some(tx)
  {
    var first := [Arrive(q, Job(false, true)), Acquire(q), Advance(q)];
    ThreeSteps(s, Arrive(q, Job(false, true)), Acquire(q), Advance(q));
    var t := After(s, first);
    var tx := Tx(Initialize, t.Nonce(), t.serial);
    var rest := [Advance(q), Advance(q), Submit(q, true, true), Commit(tx), Confirm(q, ByHash), Advance(q)];
    InitializeDone(t, q);
    RunsConcat(s, first, rest);
    acts := first + rest;
  }

  // ----- a dropped request, and a failing one -----

  /** The same state, except for who still waits for an answer. */
  predicate Alike(s: State, t: State) {
    && t == s.(tasks := t.tasks) && t.tasks.Keys == s.tasks.Keys
    && forall r :: r in s.tasks ==> t.tasks[r].(attended := s.tasks[r].attended) == s.tasks[r]
  }

  lemma AlikeGoto(s: State, t: State, r: nat, pc: Pc)
    requires Alike(s, t) && r in s.tasks
    ensures Alike(Goto(s, r, pc), Goto(t, r, pc))
  {
  }

  lemma AlikeSubmit(s: State, t: State, a: Action)
    requires Alike(s, t) && Enabled(s, a) && (a.Submit? || a.Confirm?)
    ensures Enabled(t, a) && Alike(Apply(s, a), Apply(t, a))
  {
  }

  lemma AlikeStep(s: State, t: State, a: Action)
    requires Alike(s, t) && Enabled(s, a)
    ensures Enabled(t, a) && Alike(Apply(s, a), Apply(t, a))
  {
    match a
    case Advance(r) => AlikeGoto(s, t, r, NextPc(s, s.tasks[r]));
    case Fail(r) => AlikeGoto(s, t, r, Done(None));
    case GiveUp(r) => AlikeGoto(s, t, r, Done(None));
    case Submit(_, _, _) => AlikeSubmit(s, t, a);
    case Confirm(_, _) => AlikeSubmit(s, t, a);
    case _ =>
  }

  lemma {:induction false} AlikeRun(s: State, t: State, acts: seq<Action>)
    requires Alike(s, t) && Runs(s, acts)
    ensures Runs(t, acts) && Alike(After(s, acts), After(t, acts))
    decreases acts
  {
    if acts != [] {
      AlikeStep(s, t, acts[0]);
      AlikeRun(Apply(s, acts[0]), Apply(t, acts[0]), acts[1..]);
    }
  }

  /** Whoever made a request may leave at any time. Once its section is detached, what
      follows is the same with and without that; before, its place or the lock is free. */
  lemma DroppedRequest(s: State, r: nat, acts: seq<Action>)
    requires r in s.tasks && !s.tasks[r].pc.Done?
    ensures Enabled(s, Disconnect(r))
    ensures var t := Apply(s, Disconnect(r));
      if s.tasks[r].pc.Waiting? || s.tasks[r].pc.Gating?
      then t == s.(tasks := s.tasks - {r}, lock := if s.tasks[r].pc.Waiting? then s.lock else None)
      else
        && (Runs(t, acts) <==> Runs(s, acts))
        && (Runs(s, acts) ==> Alike(After(s, acts), After(t, acts)))
  {
    var t := Apply(s, Disconnect(r));
    if !s.tasks[r].pc.Waiting? && !s.tasks[r].pc.Gating? {
      if Runs(s, acts) { AlikeRun(s, t, acts); }
      if Runs(t, acts) { AlikeRun(t, s, acts); }
    }
  }

  /** Wherever a section is, it can fail, and then the lock is free. */
  lemma LockIsNeverStuck(s: State, r: nat)
    requires Exclusive(s) && s.lock == Some(r)
    ensures var a := if BeforeSubmit(s.tasks[r].pc) then Fail(r) else GiveUp(r);
      && Enabled(s, a) && Apply(s, a).lock.None? && Apply(s, a).tasks[r].pc == Done(None)
      && Apply(s, a).pending == s.pending && Apply(s, a).committed == s.committed
  {
  }

  // ----- the confirmation polls -----

  const GET_TX_MAX_RPC_ERRORS: nat := 3

  datatype TxReply = Found | NotYet | RpcError

  datatype Outcome = TxCommitted | TxUncommitted | NonceAdvanced | Unconfirmed

  /** The poll at which a third consecutive error gives up on the hash lookup. */
  predicate Unavailable(get: nat -> TxReply, j: nat) {
    j >= 2 && get(j).RpcError? && get(j - 1).RpcError? && get(j - 2).RpcError?
  }

  /** No poll before `i` ended the lookup. */
  predicate StillPolling(get: nat -> TxReply, i: nat) {
    forall k: nat :: k < i ==> !get(k).Found? && !Unavailable(get, k)
  }

  predicate Advanced(nonce: Option<nat>, watched: nat) { nonce.Some? && nonce.value > watched }

  /** `confirm_via_nonce_advance`: poll until the deadline, skipping failed reads. */
  method ConfirmByNonce(nonces: nat -> Option<nat>, deadline: nat, watched: nat) returns (o: Outcome)
    ensures o == NonceAdvanced || o == Unconfirmed
    ensures o == NonceAdvanced <==> exists i: nat :: i <= deadline && Advanced(nonces(i), watched)
  {
    var i := 0;
    while true
      invariant 0 <= i <= deadline && forall k: nat :: k < i ==> !Advanced(nonces(k), watched)
      decreases deadline - i
    {
      if Advanced(nonces(i), watched) {
        return NonceAdvanced;
      }
      if i >= deadline {
        return Unconfirmed;
      }
      i := i + 1;
    }
  }

  /** The hash lookup: found, not found by the deadline, or given up on. */
  method ConfirmByHash(get: nat -> TxReply, deadline: nat) returns (o: Option<Outcome>)
    ensures o == Some(TxCommitted) <==> exists i: nat :: i <= deadline && StillPolling(get, i) && get(i).Found?
    ensures o == Some(TxUncommitted) <==> StillPolling(get, deadline + 1)
    ensures o.None? || o == Some(TxCommitted) || o == Some(TxUncommitted)
  {
    var i, errors := 0, 0;
    while true
      invariant 0 <= i <= deadline && errors <= i && errors < GET_TX_MAX_RPC_ERRORS && StillPolling(get, i)
      invariant (errors >= 1 ==> get(i - 1).RpcError?) && (errors >= 2 ==> get(i - 2).RpcError?)
      invariant errors < i ==> !get(i - errors - 1).RpcError?
      decreases deadline - i
    {
      match get(i) {
        case Found =>
          return Some(TxCommitted);
        case NotYet =>
          errors := 0;
        case RpcError =>
          errors := errors + 1;
          if errors >= GET_TX_MAX_RPC_ERRORS {
            assert Unavailable(get, i);
            return None;
          }
      }
      assert !Unavailable(get, i);
      if i >= deadline {
        return Some(TxUncommitted);
      }
      i := i + 1;
    }
  }

  /** `confirm_submitted_tx`: by hash while the lookup works, else by nonce. The
      deadlines are given as the number of the poll that first sees them passed. */
  method ConfirmSubmittedTx(parses: bool, get: nat -> TxReply, deadline: nat,
                            nonces: nat -> Option<nat>, nonceDeadline: nat, watched: nat) returns (o: Outcome)
    ensures o == TxCommitted <==> parses && exists i: nat :: i <= deadline && StillPolling(get, i) && get(i).Found?
    ensures o == TxUncommitted <==> parses && StillPolling(get, deadline + 1)
    ensures o == NonceAdvanced ==> exists i: nat :: i <= nonceDeadline && Advanced(nonces(i), watched)
    ensures o == Unconfirmed ==> forall i: nat :: i <= nonceDeadline ==> !Advanced(nonces(i), watched)
  {
    if parses {
      var byHash := ConfirmByHash(get, deadline);
      if byHash.Some? {
        return byHash.value;
      }
    }
    o := ConfirmByNonce(nonces, nonceDeadline, watched);
  }
}
