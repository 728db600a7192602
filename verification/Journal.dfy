/** The maker's crash-recovery journal (`StateStore`, src/cli/bot.rs).

    The state file is modelled by what a reader sees now (`visible`) and by the
    contents a power loss may leave (`durable`): a rename whose directory entry
    was not yet fsynced can still be undone. */
module Journal {
  import opened Common

  datatype SwapStage = PreLock | Funded

  datatype InFlightSwap = InFlightSwap(hashlock: string, swapId: string, recordedAt: nat, stage: SwapStage)

  datatype QuarantinedSwap = QuarantinedSwap(hashlock: string, swapId: string, reason: string, quarantinedAt: nat)

  datatype BotState = BotState(inFlight: seq<InFlightSwap>, quarantined: seq<QuarantinedSwap>)

  datatype File = File(visible: BotState, durable: set<BotState>)

  datatype Store = Store(mem: BotState, file: File)

  /** Where one `persist` fails, if it does: while writing the temporary file, or
      after the rename, opening or syncing the directory. */
  datatype Fault = NoFault | BeforeRename | AfterRename

  function Persisted(f: File, state: BotState, fault: Fault): (File, bool) {
    match fault
    case NoFault => (File(state, {state}), true)
    case BeforeRename => (f, false)
    case AfterRename => (File(state, f.durable + {state}), false)
  }

  // ----- specification of the operations -----

  predicate Has(s: BotState, h: string) {
    exists e :: e in s.inFlight && e.hashlock == h
  }

  function Without(es: seq<InFlightSwap>, h: string): seq<InFlightSwap> {
    if es == [] then [] else
      Without(es[..|es| - 1], h) + (if es[|es| - 1].hashlock != h then [es[|es| - 1]] else [])
  }

  function Upgraded(es: seq<InFlightSwap>, h: string): seq<InFlightSwap> {
    seq(|es|, i requires 0 <= i < |es| => if es[i].hashlock == h then es[i].(stage := Funded) else es[i])
  }

  function SwapIdOf(es: seq<InFlightSwap>, h: string): string {
    if es == [] then "" else if es[0].hashlock == h then es[0].swapId else SwapIdOf(es[1..], h)
  }

  function Recorded(s: Store, swap: InFlightSwap, fault: Fault): (Store, bool) {
    if Has(s.mem, swap.hashlock) then (s, true) else
      var mem' := s.mem.(inFlight := s.mem.inFlight + [swap]);
      var (file', ok) := Persisted(s.file, mem', fault);
      (Store(if ok then mem' else s.mem, file'), ok)
  }

  function MarkedFunded(s: Store, h: string, fault: Fault): Store {
    var mem' := s.mem.(inFlight := Upgraded(s.mem.inFlight, h));
    if mem' == s.mem then s else Store(mem', Persisted(s.file, mem', fault).0)
  }

  function Removed(s: Store, h: string, fault: Fault): Store {
    var mem' := s.mem.(inFlight := Without(s.mem.inFlight, h));
    if |mem'.inFlight| == |s.mem.inFlight| then s else Store(mem', Persisted(s.file, mem', fault).0)
  }

  function MovedToQuarantine(s: Store, h: string, reason: string, now: nat, fault: Fault): Store {
    var id := SwapIdOf(s.mem.inFlight, h);
    var q := if exists x :: x in s.mem.quarantined && x.hashlock == h then s.mem.quarantined
             else s.mem.quarantined + [QuarantinedSwap(h, id, reason, now)];
    var mem' := BotState(Without(s.mem.inFlight, h), q);
    Store(mem', Persisted(s.file, mem', fault).0)
  }

  datatype Op =
    | DoRecord(swap: InFlightSwap, fault: Fault)
    | DoMarkFunded(h: string, fault: Fault)
    | DoRemove(h: string, fault: Fault)
    | DoQuarantine(h: string, reason: string, now: nat, fault: Fault)
    | Restart
    | PowerLoss(kept: BotState)

  /** A process restart reloads the visible file; a power loss first fixes the
      file to one of its durable candidates. */
  predicate Enabled(s: Store, op: Op) {
    op.PowerLoss? ==> op.kept in s.file.durable
  }

  function Apply(s: Store, op: Op): Store {
    match op
    case DoRecord(swap, fault) => Recorded(s, swap, fault).0
    case DoMarkFunded(h, fault) => MarkedFunded(s, h, fault)
    case DoRemove(h, fault) => Removed(s, h, fault)
    case DoQuarantine(h, reason, now, fault) => MovedToQuarantine(s, h, reason, now, fault)
    case Restart => Store(s.file.visible, s.file)
    case PowerLoss(kept) => Store(kept, File(kept, {kept}))
  }

  /** The hashlocks the journal owes its caller: recorded successfully and not
      handed back since. */
  function Owed(s: Store, owed: set<string>, op: Op): set<string> {
    match op
    case DoRecord(swap, fault) => if Recorded(s, swap, fault).1 then owed + {swap.hashlock} else owed
    case DoRemove(h, _) => owed - {h}
    case DoQuarantine(h, _, _, _) => owed - {h}
    case DoMarkFunded(_, _) => owed
    case Restart => owed
    case PowerLoss(_) => owed
  }

  // ----- facts about the lists -----

  predicate Unique(es: seq<InFlightSwap>) {
    forall i, j :: 0 <= i < j < |es| ==> es[i].hashlock != es[j].hashlock
  }

  lemma {:induction false} WithoutMember(es: seq<InFlightSwap>, h: string, e: InFlightSwap)
    ensures e in Without(es, h) <==> e in es && e.hashlock != h
  {
    if es != [] {
      WithoutMember(es[..|es| - 1], h, e);
      assert es == es[..|es| - 1] + [es[|es| - 1]];
    }
  }

  lemma {:induction false} WithoutLength(es: seq<InFlightSwap>, h: string)
    ensures |Without(es, h)| <= |es|
    ensures |Without(es, h)| == |es| ==> Without(es, h) == es
  {
    if es != [] {
      var init, last := es[..|es| - 1], es[|es| - 1];
      WithoutLength(init, h);
      if last.hashlock != h {
        assert Without(es, h) == Without(init, h) + [last];
        assert es == init + [last];
      } else {
        assert Without(es, h) == Without(init, h);
      }
    }
  }

  lemma WithoutMembers(es: seq<InFlightSwap>, h: string)
    ensures forall e :: e in Without(es, h) <==> e in es && e.hashlock != h
    ensures |Without(es, h)| <= |es|
    ensures |Without(es, h)| == |es| ==> Without(es, h) == es
  {
    forall e ensures e in Without(es, h) <==> e in es && e.hashlock != h { WithoutMember(es, h, e); }
    WithoutLength(es, h);
  }

  lemma AppendUnique(es: seq<InFlightSwap>, last: InFlightSwap)
    requires Unique(es) && forall e :: e in es ==> e.hashlock != last.hashlock
    ensures Unique(es + [last])
  {
    var all := es + [last];
    forall i, j | 0 <= i < j < |all| ensures all[i].hashlock != all[j].hashlock {
      assert es[i] in es;
    }
  }

  lemma {:induction false} WithoutUnique(es: seq<InFlightSwap>, h: string)
    requires Unique(es)
    ensures Unique(Without(es, h))
  {
    if es != [] {
      var init, last := es[..|es| - 1], es[|es| - 1];
      WithoutUnique(init, h);
      forall e | e in Without(init, h) ensures e.hashlock != last.hashlock {
        WithoutMembers(init, h);
        var k :| 0 <= k < |init| && init[k] == e;
        assert es[k] == e;
      }
      AppendUnique(Without(init, h), last);
    }
  }

  lemma UpgradedMembers(es: seq<InFlightSwap>, h: string)
    ensures Unique(es) ==> Unique(Upgraded(es, h))
    ensures forall e :: e in Upgraded(es, h) ==>
      exists d :: d in es && d.hashlock == e.hashlock && (e == d || (e.hashlock == h && e.stage == Funded))
    ensures forall d :: d in es ==>
      exists e :: e in Upgraded(es, h) && d.hashlock == e.hashlock && (d.stage == Funded ==> e.stage == Funded)
  {
    var up := Upgraded(es, h);
    forall e | e in up
      ensures exists d :: d in es && d.hashlock == e.hashlock && (e == d || (e.hashlock == h && e.stage == Funded))
    {
      var i :| 0 <= i < |up| && up[i] == e;
      assert es[i] in es;
    }
    forall d | d in es
      ensures exists e :: e in up && d.hashlock == e.hashlock && (d.stage == Funded ==> e.stage == Funded)
    {
      var i :| 0 <= i < |es| && es[i] == d;
      assert up[i] in up;
    }
  }

  // ----- invariants -----

  predicate Covers(c: BotState, mem: BotState) {
    forall e :: e in mem.inFlight ==> Has(c, e.hashlock)
  }

  /** `c` records no swap as funded that `mem` still holds as unlocked. */
  predicate NotAhead(c: BotState, mem: BotState) {
    forall d, e :: d in c.inFlight && e in mem.inFlight && d.hashlock == e.hashlock && d.stage == Funded ==>
      e.stage == Funded
  }

  /** Every content a crash can leave holds everything memory holds. */
  ghost predicate MemCovered(s: Store) {
    forall c :: c in s.file.durable ==> Covers(c, s.mem)
  }

  lemma SelfCovers(mem: BotState)
    requires Unique(mem.inFlight)
    ensures Covers(mem, mem) && NotAhead(mem, mem)
  {
    forall d, e | d in mem.inFlight && e in mem.inFlight && d.hashlock == e.hashlock ensures d == e {
      var i :| 0 <= i < |mem.inFlight| && mem.inFlight[i] == d;
      var j :| 0 <= j < |mem.inFlight| && mem.inFlight[j] == e;
      assert i == j;
    }
  }

  // ----- what is owed is kept -----

  ghost predicate HoldsOwed(s: Store, owed: set<string>) {
    && s.file.visible in s.file.durable
    && (forall h :: h in owed ==> Has(s.mem, h))
    && (forall c, h :: c in s.file.durable && h in owed ==> Has(c, h))
  }

  /** The one call whose promise can fail: a `record` that returns early for a
      hashlock which some content a crash can leave does not hold. */
  predicate RecordCovered(s: Store, op: Op) {
    op.DoRecord? && Has(s.mem, op.swap.hashlock) ==> forall c :: c in s.file.durable ==> Has(c, op.swap.hashlock)
  }

  lemma HasAppended(b: BotState, e: InFlightSwap)
    ensures Has(b.(inFlight := b.inFlight + [e]), e.hashlock)
    ensures forall h :: Has(b, h) ==> Has(b.(inFlight := b.inFlight + [e]), h)
  {
    var b' := b.(inFlight := b.inFlight + [e]);
    assert e in b'.inFlight;
    forall h | Has(b, h) ensures Has(b', h) {
      var d :| d in b.inFlight && d.hashlock == h;
      assert d in b'.inFlight;
    }
  }

  lemma HasUpgraded(b: BotState, k: string, h: string)
    requires Has(b, h)
    ensures Has(b.(inFlight := Upgraded(b.inFlight, k)), h)
  {
    UpgradedMembers(b.inFlight, k);
    var d :| d in b.inFlight && d.hashlock == h;
  }

  lemma HasWithout(b: BotState, k: string, h: string)
    requires Has(b, h) && h != k
    ensures exists e :: e in Without(b.inFlight, k) && e.hashlock == h
  {
    WithoutMembers(b.inFlight, k);
    var d :| d in b.inFlight && d.hashlock == h;
    assert d in Without(b.inFlight, k);
  }

  lemma RecordOwes(s: Store, owed: set<string>, swap: InFlightSwap, fault: Fault)
    requires HoldsOwed(s, owed)
    ensures var op := DoRecord(swap, fault); HoldsOwed(Apply(s, op), Owed(s, owed, op)) <==> RecordCovered(s, op)
  {
    HasAppended(s.mem, swap);
  }

  lemma MarkFundedOwes(s: Store, owed: set<string>, k: string, fault: Fault)
    requires HoldsOwed(s, owed)
    ensures HoldsOwed(MarkedFunded(s, k, fault), owed)
  {
    forall h | h in owed ensures Has(s.mem.(inFlight := Upgraded(s.mem.inFlight, k)), h) { HasUpgraded(s.mem, k, h); }
  }

  lemma RemoveOwes(s: Store, owed: set<string>, k: string, fault: Fault)
    requires HoldsOwed(s, owed)
    ensures HoldsOwed(Removed(s, k, fault), owed - {k})
  {
    forall h | h in owed - {k} ensures Has(s.mem.(inFlight := Without(s.mem.inFlight, k)), h) {
      HasWithout(s.mem, k, h);
    }
  }

  lemma QuarantineOwes(s: Store, owed: set<string>, k: string, reason: string, now: nat, fault: Fault)
    requires HoldsOwed(s, owed)
    ensures HoldsOwed(MovedToQuarantine(s, k, reason, now, fault), owed - {k})
  {
    var mem' := MovedToQuarantine(s, k, reason, now, fault).mem;
    forall h | h in owed - {k} ensures Has(mem', h) { HasWithout(s.mem, k, h); }
  }

  /** Every step, restarts on an unsynced file included, keeps what is owed in
      memory and in all that a crash can leave, exactly unless it is an early
      `record` of a hashlock that is not yet in all of it. */
  lemma OwedKeptIff(s: Store, owed: set<string>, op: Op)
    requires HoldsOwed(s, owed) && Enabled(s, op)
    ensures HoldsOwed(Apply(s, op), Owed(s, owed, op)) <==> RecordCovered(s, op)
  {
    match op
    case DoRecord(swap, fault) => RecordOwes(s, owed, swap, fault);
    case DoMarkFunded(k, fault) => MarkFundedOwes(s, owed, k, fault);
    case DoRemove(k, fault) => RemoveOwes(s, owed, k, fault);
    case DoQuarantine(k, reason, now, fault) => QuarantineOwes(s, owed, k, reason, now, fault);
    case Restart =>
    case PowerLoss(kept) =>
  }

  // ----- runs -----

  ghost predicate Run(s: Store, ops: seq<Op>)
    decreases ops
  {
    ops == [] || (Enabled(s, ops[0]) && Run(Apply(s, ops[0]), ops[1..]))
  }

  function Final(s: Store, ops: seq<Op>): Store
    decreases ops
  {
    if ops == [] then s else Final(Apply(s, ops[0]), ops[1..])
  }

  function FinalOwed(s: Store, owed: set<string>, ops: seq<Op>): set<string>
    decreases ops
  {
    if ops == [] then owed else FinalOwed(Apply(s, ops[0]), Owed(s, owed, ops[0]), ops[1..])
  }

  /** Every early return of `record` in the run was for a covered hashlock. */
  ghost predicate RecordsCovered(s: Store, ops: seq<Op>)
    decreases ops
  {
    ops == [] || (RecordCovered(s, ops[0]) && RecordsCovered(Apply(s, ops[0]), ops[1..]))
  }

  const FRESH: Store := Store(BotState([], []), File(BotState([], []), {BotState([], [])}))

  /** Crash safety over whole runs: whatever faults, restarts and power losses a
      run met, memory and every content a further crash could leave hold each
      hashlock still owed. */
  lemma {:induction false} CrashSafe(s: Store, owed: set<string>, ops: seq<Op>)
    requires HoldsOwed(s, owed) && Run(s, ops) && RecordsCovered(s, ops)
    ensures HoldsOwed(Final(s, ops), FinalOwed(s, owed, ops))
    decreases ops
  {
    if ops != [] {
      OwedKeptIff(s, owed, ops[0]);
      CrashSafe(Apply(s, ops[0]), Owed(s, owed, ops[0]), ops[1..]);
    }
  }

  /** From a fresh deployment: after any run, also one that ends in a crash, the
      reloaded journal holds every hashlock whose `record` returned success and
      that was not since removed or quarantined. */
  lemma FreshRunIsCrashSafe(ops: seq<Op>, crash: Op)
    requires Run(FRESH, ops) && RecordsCovered(FRESH, ops)
    requires (crash.Restart? || crash.PowerLoss?) && Enabled(Final(FRESH, ops), crash)
    ensures forall h :: h in FinalOwed(FRESH, {}, ops) ==> Has(Apply(Final(FRESH, ops), crash).mem, h)
  {
    CrashSafe(FRESH, {}, ops);
    OwedKeptIff(Final(FRESH, ops), FinalOwed(FRESH, {}, ops), crash);
  }

  /** Hashlocks in flight are unique, in memory and in all that a crash can leave. */
  ghost predicate AllUnique(s: Store) {
    s.file.visible in s.file.durable && Unique(s.mem.inFlight) && forall c :: c in s.file.durable ==> Unique(c.inFlight)
  }

  lemma PersistUnique(f: File, mem: BotState, mem': BotState, fault: Fault)
    requires AllUnique(Store(mem, f)) && Unique(mem'.inFlight)
    ensures AllUnique(Store(mem', Persisted(f, mem', fault).0)) && AllUnique(Store(mem, Persisted(f, mem', fault).0))
  {
  }

  lemma UniqueStep(s: Store, op: Op)
    requires AllUnique(s) && Enabled(s, op)
    ensures AllUnique(Apply(s, op))
  {
    match op
    case DoRecord(swap, fault) =>
      if !Has(s.mem, swap.hashlock) {
        AppendUnique(s.mem.inFlight, swap);
        PersistUnique(s.file, s.mem, s.mem.(inFlight := s.mem.inFlight + [swap]), fault);
      }
    case DoMarkFunded(k, fault) =>
      UpgradedMembers(s.mem.inFlight, k);
      PersistUnique(s.file, s.mem, s.mem.(inFlight := Upgraded(s.mem.inFlight, k)), fault);
    case DoRemove(k, fault) =>
      WithoutUnique(s.mem.inFlight, k);
      PersistUnique(s.file, s.mem, s.mem.(inFlight := Without(s.mem.inFlight, k)), fault);
    case DoQuarantine(k, reason, now, fault) =>
      WithoutUnique(s.mem.inFlight, k);
      PersistUnique(s.file, s.mem, MovedToQuarantine(s, k, reason, now, fault).mem, fault);
    case Restart =>
    case PowerLoss(kept) =>
  }

  /** That needs no condition on the run. */
  lemma {:induction false} RunUnique(s: Store, ops: seq<Op>)
    requires AllUnique(s) && Run(s, ops)
    ensures AllUnique(Final(s, ops))
    decreases ops
  {
    if ops != [] {
      UniqueStep(s, ops[0]);
      RunUnique(Apply(s, ops[0]), ops[1..]);
    }
  }

  // ----- no file is ahead of memory -----

  /** No content a crash can leave has a swap funded that memory, or the file a
      restart loads, holds as unlocked. */
  ghost predicate NeverAhead(s: Store) {
    && AllUnique(s)
    && forall c :: c in s.file.durable ==> NotAhead(c, s.mem) && NotAhead(c, s.file.visible)
  }

  /** The one call that breaks it: a `record` whose directory sync fails, of a swap
      that some content a crash can leave still has as funded. */
  ghost predicate RecordsOverFunded(s: Store, op: Op) {
    && op.DoRecord? && op.fault == AfterRename && op.swap.stage == PreLock && !Has(s.mem, op.swap.hashlock)
    && exists c, d :: c in s.file.durable && d in c.inFlight && d.hashlock == op.swap.hashlock && d.stage == Funded
  }

  lemma PersistNeverAhead(f: File, mem': BotState, fault: Fault)
    requires AllUnique(Store(mem', f))
    requires forall c :: c in f.durable ==> NotAhead(c, mem') && NotAhead(c, f.visible)
    ensures NeverAhead(Store(mem', Persisted(f, mem', fault).0))
  {
    SelfCovers(mem');
  }

  lemma RecordNeverAhead(s: Store, swap: InFlightSwap, fault: Fault)
    requires NeverAhead(s)
    ensures var op := DoRecord(swap, fault); NeverAhead(Apply(s, op)) <==> !RecordsOverFunded(s, op)
  {
    var op := DoRecord(swap, fault);
    UniqueStep(s, op);
    if !Has(s.mem, swap.hashlock) {
      var mem' := s.mem.(inFlight := s.mem.inFlight + [swap]);
      AppendUnique(s.mem.inFlight, swap);
      SelfCovers(mem');
      SelfCovers(s.mem);
      assert swap in mem'.inFlight;
      assert NotAhead(mem', s.mem);
      if fault == AfterRename {
        assert mem' in Apply(s, op).file.durable && Apply(s, op).file.visible == mem';
      }
    }
  }

  lemma UpgradedNotAhead(c: BotState, mem: BotState, k: string)
    requires NotAhead(c, mem)
    ensures NotAhead(c, mem.(inFlight := Upgraded(mem.inFlight, k)))
  {
    var mem' := mem.(inFlight := Upgraded(mem.inFlight, k));
    UpgradedMembers(mem.inFlight, k);
    forall d, e | d in c.inFlight && e in mem'.inFlight && d.hashlock == e.hashlock && d.stage == Funded
      ensures e.stage == Funded
    {
      var d' :| d' in mem.inFlight && d'.hashlock == e.hashlock
                && (e == d' || (e.hashlock == k && e.stage == Funded));
    }
  }

  lemma MarkFundedNeverAhead(s: Store, k: string, fault: Fault)
    requires NeverAhead(s)
    ensures NeverAhead(MarkedFunded(s, k, fault))
  {
    UpgradedMembers(s.mem.inFlight, k);
    var mem' := s.mem.(inFlight := Upgraded(s.mem.inFlight, k));
    forall c | c in s.file.durable ensures NotAhead(c, mem') { UpgradedNotAhead(c, s.mem, k); }
    PersistNeverAhead(s.file, mem', fault);
  }

  lemma DropNeverAhead(s: Store, k: string, mem': BotState, fault: Fault)
    requires NeverAhead(s) && mem'.inFlight == Without(s.mem.inFlight, k)
    ensures NeverAhead(Store(mem', s.file)) && NeverAhead(Store(mem', Persisted(s.file, mem', fault).0))
  {
    WithoutMembers(s.mem.inFlight, k);
    WithoutUnique(s.mem.inFlight, k);
    PersistNeverAhead(s.file, mem', fault);
  }

  /** Every step, restarts and power losses included, keeps all files from being
      ahead of memory, exactly unless it is that call. */
  lemma NeverAheadIff(s: Store, op: Op)
    requires NeverAhead(s) && Enabled(s, op)
    ensures NeverAhead(Apply(s, op)) <==> !RecordsOverFunded(s, op)
  {
    match op
    case DoRecord(swap, fault) => RecordNeverAhead(s, swap, fault);
    case DoMarkFunded(k, fault) => MarkFundedNeverAhead(s, k, fault);
    case DoRemove(k, fault) => DropNeverAhead(s, k, s.mem.(inFlight := Without(s.mem.inFlight, k)), fault);
    case DoQuarantine(k, reason, now, fault) =>
      DropNeverAhead(s, k, MovedToQuarantine(s, k, reason, now, fault).mem, fault);
    case Restart =>
    case PowerLoss(kept) => SelfCovers(kept);
  }

  ghost predicate NoneOverFunded(s: Store, ops: seq<Op>)
    decreases ops
  {
    ops == [] || (!RecordsOverFunded(s, ops[0]) && NoneOverFunded(Apply(s, ops[0]), ops[1..]))
  }

  /** Over whole runs: no content a crash can leave is ahead of memory in stage. */
  lemma {:induction false} RunNeverAhead(s: Store, ops: seq<Op>)
    requires NeverAhead(s) && Run(s, ops) && NoneOverFunded(s, ops)
    ensures NeverAhead(Final(s, ops))
    decreases ops
  {
    if ops != [] {
      NeverAheadIff(s, ops[0]);
      RunNeverAhead(Apply(s, ops[0]), ops[1..]);
    }
  }

  /** The run in which the file gets ahead: a funded swap is removed and recorded
      again, both without a completed directory sync, and the process restarts. */
  lemma RerecordedFallsBehind(swap: InFlightSwap)
    requires swap.stage == PreLock
    ensures var ops := RerecordRun(swap); var funded := BotState([swap.(stage := Funded)], []);
      && Run(FRESH, ops) && NeverAhead(FRESH) && !NoneOverFunded(FRESH, ops)
      && Final(FRESH, ops).mem == BotState([swap], []) && funded in Final(FRESH, ops).file.durable
      && !NotAhead(funded, Final(FRESH, ops).mem)
  {
    var ops := RerecordRun(swap);
    var locked, funded, none := BotState([swap], []), BotState([swap.(stage := Funded)], []), BotState([], []);
    var s1 := Store(locked, File(locked, {locked}));
    var s2 := Store(funded, File(funded, {funded}));
    var s3 := Store(none, File(none, {funded, none}));
    var s4 := Store(none, File(locked, {funded, none, locked}));
    var s5 := Store(locked, s4.file);
    assert swap in locked.inFlight && swap.(stage := Funded) in funded.inFlight;
    assert Apply(FRESH, ops[0]) == s1;
    assert Upgraded([swap], swap.hashlock) == [swap.(stage := Funded)];
    assert Apply(s1, ops[1]) == s2;
    assert Without([swap.(stage := Funded)], swap.hashlock) == [];
    assert Apply(s2, ops[2]) == s3 && Apply(s3, ops[3]) == s4 && Apply(s4, ops[4]) == s5;
    assert RecordsOverFunded(s3, ops[3]);
    OneOp(s4, ops[4], []);
    OneOp(s3, ops[3], [ops[4]]);
    OneOp(s2, ops[2], [ops[3], ops[4]]);
    OneOp(s1, ops[1], [ops[2], ops[3], ops[4]]);
    OneOp(FRESH, ops[0], [ops[1], ops[2], ops[3], ops[4]]);
    assert ops == [ops[0]] + [ops[1], ops[2], ops[3], ops[4]];
  }

  function RerecordRun(swap: InFlightSwap): (ops: seq<Op>)
    ensures |ops| == 5
  {
    [DoRecord(swap, NoFault), DoMarkFunded(swap.hashlock, NoFault), DoRemove(swap.hashlock, AfterRename),
     DoRecord(swap, AfterRename), Restart]
  }

  lemma OneOp(s: Store, op: Op, rest: seq<Op>)
    ensures Run(s, [op] + rest) <==> Enabled(s, op) && Run(Apply(s, op), rest)
    ensures Final(s, [op] + rest) == Final(Apply(s, op), rest)
    ensures NoneOverFunded(s, [op] + rest) <==> !RecordsOverFunded(s, op) && NoneOverFunded(Apply(s, op), rest)
  {
    assert ([op] + rest)[1..] == rest;
  }

  // ----- every file covers memory -----

  /** Every content a crash can leave holds all of memory, and all of the file that a
      restart loads. */
  ghost predicate CoveredEverywhere(s: Store) {
    s.file.visible in s.file.durable && forall c :: c in s.file.durable ==>
      Covers(c, s.mem) && Covers(c, s.file.visible)
  }

  /** The one call that breaks it: a `record` of something new whose sync fails. */
  ghost predicate RecordsUncovered(s: Store, op: Op) {
    && op.DoRecord? && op.fault == AfterRename && !Has(s.mem, op.swap.hashlock)
    && exists c :: c in s.file.durable && !Has(c, op.swap.hashlock)
  }

  lemma RecordCoversIff(s: Store, swap: InFlightSwap, fault: Fault)
    requires CoveredEverywhere(s)
    ensures var op := DoRecord(swap, fault); CoveredEverywhere(Apply(s, op)) <==> !RecordsUncovered(s, op)
  {
    var mem' := s.mem.(inFlight := s.mem.inFlight + [swap]);
    HasAppended(s.mem, swap);
    assert swap in mem'.inFlight;
    forall e | e in s.mem.inFlight ensures Has(mem', e.hashlock) { assert Has(s.mem, e.hashlock); }
  }

  lemma PersistCovers(f: File, mem': BotState, fault: Fault)
    requires CoveredEverywhere(Store(mem', f))
    ensures CoveredEverywhere(Store(mem', Persisted(f, mem', fault).0))
  {
  }

  lemma MarkFundedCovers(s: Store, k: string, fault: Fault)
    requires CoveredEverywhere(s)
    ensures CoveredEverywhere(MarkedFunded(s, k, fault))
  {
    UpgradedMembers(s.mem.inFlight, k);
    var mem' := s.mem.(inFlight := Upgraded(s.mem.inFlight, k));
    forall c, e | c in s.file.durable && e in mem'.inFlight ensures Has(c, e.hashlock) {
      var d :| d in s.mem.inFlight && d.hashlock == e.hashlock;
    }
    PersistCovers(s.file, mem', fault);
  }

  lemma DropCovers(s: Store, k: string, mem': BotState, fault: Fault)
    requires CoveredEverywhere(s) && mem'.inFlight == Without(s.mem.inFlight, k)
    ensures CoveredEverywhere(Store(mem', s.file)) && CoveredEverywhere(Store(mem', Persisted(s.file, mem', fault).0))
  {
    WithoutMembers(s.mem.inFlight, k);
    PersistCovers(s.file, mem', fault);
  }

  lemma CoveredIff(s: Store, op: Op)
    requires CoveredEverywhere(s) && Enabled(s, op)
    ensures CoveredEverywhere(Apply(s, op)) <==> !RecordsUncovered(s, op)
  {
    match op
    case DoRecord(swap, fault) => RecordCoversIff(s, swap, fault);
    case DoMarkFunded(k, fault) => MarkFundedCovers(s, k, fault);
    case DoRemove(k, fault) => DropCovers(s, k, s.mem.(inFlight := Without(s.mem.inFlight, k)), fault);
    case DoQuarantine(k, reason, now, fault) =>
      DropCovers(s, k, MovedToQuarantine(s, k, reason, now, fault).mem, fault);
    case Restart =>
    case PowerLoss(kept) =>
  }

  /** The promise of `record`, that success means the entry survives any crash,
      holds for every next call exactly when memory is already covered by every
      durable content: the early return for a known hashlock writes nothing. */
  lemma RecordIsDurableIff(s: Store)
    ensures MemCovered(s) <==>
      (forall swap, fault :: Recorded(s, swap, fault).1 ==>
         forall c :: c in Recorded(s, swap, fault).0.file.durable ==> Has(c, swap.hashlock))
  {
    if MemCovered(s) {
      forall swap, fault, c | Recorded(s, swap, fault).1 && c in Recorded(s, swap, fault).0.file.durable
        ensures Has(c, swap.hashlock)
      {
        if Has(s.mem, swap.hashlock) {
          var e :| e in s.mem.inFlight && e.hashlock == swap.hashlock;
        } else {
          assert c == s.mem.(inFlight := s.mem.inFlight + [swap]);
          assert swap in c.inFlight;
        }
      }
    } else {
      var c, e :| c in s.file.durable && e in s.mem.inFlight && !Has(c, e.hashlock);
      assert Recorded(s, e, NoFault) == (s, true);
    }
  }

  /** The run in which the promise fails: a `record` that failed after the rename, a
      process restart, a successful re-`record` of the same hashlock and a power
      loss leave an empty journal. The uncovered step is the re-`record`. */
  lemma UnsyncedRestartLosesRecord(swap: InFlightSwap)
    ensures var a := Recorded(FRESH, swap, AfterRename);
      var b := Apply(a.0, Restart);
      var c := Recorded(b, swap, NoFault);
      && !a.1 && c.1
      && Enabled(c.0, PowerLoss(FRESH.mem))
      && !Has(Apply(c.0, PowerLoss(FRESH.mem)).mem, swap.hashlock)
      && RecordCovered(FRESH, DoRecord(swap, AfterRename)) && !RecordCovered(b, DoRecord(swap, NoFault))
  {
    var a := Recorded(FRESH, swap, AfterRename);
    assert a.0.file.visible == BotState([swap], []);
    assert swap in a.0.file.visible.inFlight;
    assert FRESH.mem in a.0.file.durable && !Has(FRESH.mem, swap.hashlock);
  }

  /** A restart on an unsynced file that loses nothing: the swap was recorded, and
      only the directory sync of its upgrade failed. */
  lemma UnsyncedUpgradeIsSafe(swap: InFlightSwap)
    requires swap.stage == PreLock
    ensures var ops := [DoRecord(swap, NoFault), DoMarkFunded(swap.hashlock, AfterRename), Restart];
      && Run(FRESH, ops) && RecordsCovered(FRESH, ops)
        && Final(FRESH, ops).file.durable > {Final(FRESH, ops).file.visible}
      && swap.hashlock in FinalOwed(FRESH, {}, ops)
  {
    var ops := [DoRecord(swap, NoFault), DoMarkFunded(swap.hashlock, AfterRename), Restart];
    var a := Apply(FRESH, ops[0]);
    var b := Apply(a, ops[1]);
    assert a.mem.inFlight == [swap] && b.mem.inFlight == [swap.(stage := Funded)];
    assert b.file.durable == {a.mem, b.mem} && a.mem != b.mem;
    assert ops[1..] == [ops[1], Restart] && ops[1..][1..] == [Restart];
    assert Final(b, [Restart]) == Apply(b, Restart) && FinalOwed(b, {swap.hashlock}, [Restart]) == {swap.hashlock};
    assert Owed(FRESH, {}, ops[0]) == {swap.hashlock} && Final(FRESH, ops) == Final(a, ops[1..]);
  }

  // ----- what each operation does to the journal -----

  /** Success means the entry is there, and on file unless it was there before; a
      failure leaves memory as it was. */
  lemma RecordLaw(s: Store, swap: InFlightSwap, fault: Fault)
    ensures var (t, ok) := Recorded(s, swap, fault);
      && (ok <==> Has(s.mem, swap.hashlock) || fault == NoFault)
      && (ok ==> Has(t.mem, swap.hashlock))
      && (!ok || Has(s.mem, swap.hashlock) ==> t.mem == s.mem)
      && (ok && !Has(s.mem, swap.hashlock) ==>
            && t.mem == s.mem.(inFlight := s.mem.inFlight + [swap])
            && t.file.visible == t.mem && t.file.durable == {t.mem})
  {
    HasAppended(s.mem, swap);
  }

  /** Exactly the entries of `h` become funded, and nothing else changes. */
  lemma MarkFundedLaw(s: Store, h: string, fault: Fault)
    ensures var m := MarkedFunded(s, h, fault).mem;
      && m.quarantined == s.mem.quarantined && |m.inFlight| == |s.mem.inFlight|
      && (forall i :: 0 <= i < |m.inFlight| ==>
            m.inFlight[i] == s.mem.inFlight[i].(stage := m.inFlight[i].stage)
            && (if s.mem.inFlight[i].hashlock == h then m.inFlight[i].stage == Funded
                else m.inFlight[i] == s.mem.inFlight[i]))
      && (forall e: InFlightSwap :: e.hashlock != h ==> (e in m.inFlight <==> e in s.mem.inFlight))
      && (forall e :: e in m.inFlight && e.hashlock == h ==> e.stage == Funded)
      && (fault == NoFault && m != s.mem ==> MarkedFunded(s, h, fault).file.visible == m)
  {
    var m := MarkedFunded(s, h, fault).mem;
    assert m.inFlight == Upgraded(s.mem.inFlight, h);
    forall e: InFlightSwap | e.hashlock != h ensures e in m.inFlight <==> e in s.mem.inFlight {
      if e in s.mem.inFlight {
        var i :| 0 <= i < |s.mem.inFlight| && s.mem.inFlight[i] == e;
        assert m.inFlight[i] == e;
      }
    }
  }

  /** Exactly the entries of `h` go. */
  lemma RemoveLaw(s: Store, h: string, fault: Fault)
    ensures var m := Removed(s, h, fault).mem;
      && !Has(m, h) && m.quarantined == s.mem.quarantined
      && (forall e :: e in m.inFlight <==> e in s.mem.inFlight && e.hashlock != h)
      && (fault == NoFault && Has(s.mem, h) ==> Removed(s, h, fault).file.visible == m)
  {
    WithoutMembers(s.mem.inFlight, h);
    if Has(s.mem, h) {
      var d :| d in s.mem.inFlight && d.hashlock == h;
      assert d !in Without(s.mem.inFlight, h);
    }
  }

  predicate IsEntombed(m: BotState, h: string) { exists q :: q in m.quarantined && q.hashlock == h }

  /** The hashlock is a tombstone now, an old one kept as it was, a new one with the
      swap id of the entry. */
  ghost predicate Entombed(before: BotState, after: BotState, h: string) {
    && IsEntombed(after, h)
    && (forall q :: q in before.quarantined ==> q in after.quarantined)
    && (forall q :: q in after.quarantined && q.hashlock != h ==> q in before.quarantined)
    && (IsEntombed(before, h) ==> after.quarantined == before.quarantined)
    && (!IsEntombed(before, h) ==>
          |after.quarantined| == |before.quarantined| + 1
          && forall q :: q in after.quarantined && q.hashlock == h ==> CarriesId(before.inFlight, h, q.swapId))
  }

  /** Some entry of `h` has this swap id, if there is an entry of `h` at all. */
  predicate CarriesId(es: seq<InFlightSwap>, h: string, id: string) {
    (exists e :: e in es && e.hashlock == h) ==> exists e :: e in es && e.hashlock == h && e.swapId == id
  }

  lemma UpgradedCarries(es: seq<InFlightSwap>, h: string)
    ensures forall id :: CarriesId(Upgraded(es, h), h, id) ==> CarriesId(es, h, id)
  {
    forall id | CarriesId(Upgraded(es, h), h, id) && exists e :: e in es && e.hashlock == h
      ensures exists e :: e in es && e.hashlock == h && e.swapId == id
    {
      var d :| d in es && d.hashlock == h;
      assert d.(stage := Funded) in Upgraded(es, h) by {
        var j :| 0 <= j < |es| && es[j] == d;
        assert Upgraded(es, h)[j] == d.(stage := Funded);
      }
      var e :| e in Upgraded(es, h) && e.hashlock == h && e.swapId == id;
      var k :| 0 <= k < |es| && Upgraded(es, h)[k] == e;
      assert es[k] in es;
    }
  }

  lemma {:induction false} SwapIdIsCarried(es: seq<InFlightSwap>, h: string)
    ensures CarriesId(es, h, SwapIdOf(es, h))
  {
    if es != [] {
      assert es[0] in es;
      if es[0].hashlock != h {
        SwapIdIsCarried(es[1..], h);
        assert forall e :: e in es && e.hashlock == h ==> e in es[1..];
        assert forall e :: e in es[1..] ==> e in es;
      }
    }
  }

  /** A new tombstone of the hashlock, if it is a new one, carries this reason. */
  predicate SaysWhy(before: BotState, after: BotState, h: string, reason: string) {
    !IsEntombed(before, h) ==> forall q :: q in after.quarantined && q.hashlock == h ==> q.reason == reason
  }

  lemma QuarantineLaw(s: Store, h: string, reason: string, now: nat, fault: Fault)
    ensures var t := MovedToQuarantine(s, h, reason, now, fault);
      && !Has(t.mem, h) && Entombed(s.mem, t.mem, h)
      && (forall e :: e in t.mem.inFlight <==> e in s.mem.inFlight && e.hashlock != h)
      && (fault == NoFault ==> t.file.visible == t.mem)
      && (!IsEntombed(s.mem, h) ==>
            forall q :: q in t.mem.quarantined && q.hashlock == h ==> q.reason == reason && q.quarantinedAt == now)
      && SaysWhy(s.mem, t.mem, h, reason)
  {
    WithoutMembers(s.mem.inFlight, h);
    SwapIdIsCarried(s.mem.inFlight, h);
    var m := MovedToQuarantine(s, h, reason, now, fault).mem;
    if !IsEntombed(s.mem, h) {
      assert QuarantinedSwap(h, SwapIdOf(s.mem.inFlight, h), reason, now) in m.quarantined;
    }
  }

  // ----- the store, updated in place -----

  /** What reading the state file yields. */
  datatype RawFile = Missing | Unreadable | Corrupt | Holding(state: BotState)

  datatype LoadError = CannotRead | CorruptFile

  /** `load`: a missing file is an empty journal; an unreadable or corrupt one is an
      error, never an empty journal. */
  method Load(raw: RawFile, durable: set<BotState>) returns (r: Result<StateStore, LoadError>)
    ensures r.Err? <==> raw.Unreadable? || raw.Corrupt?
    ensures r.Ok? ==>
      var state := if raw.Missing? then BotState([], []) else raw.state;
      fresh(r.value) && r.value.View() == Store(state, File(state, durable))
  {
    match raw {
      case Unreadable => return Err(CannotRead);
      case Corrupt => return Err(CorruptFile);
      case Missing =>
        var store := new StateStore(File(BotState([], []), durable));
        return Ok(store);
      case Holding(state) =>
        var store := new StateStore(File(state, durable));
        return Ok(store);
    }
  }

  class StateStore {
    var inFlight: seq<InFlightSwap>
    var quarantined: seq<QuarantinedSwap>
    var file: File

    function View(): Store
      reads this
    {
      Store(BotState(inFlight, quarantined), file)
    }

    /** Memory starts from what the file shows. */
    constructor (file: File)
      ensures View() == Store(file.visible, file)
    {
      this.file := file;
      inFlight := file.visible.inFlight;
      quarantined := file.visible.quarantined;
    }

    method Persist(fault: Fault) returns (ok: bool)
      modifies this`file
      ensures (file, ok) == Persisted(old(file), old(View()).mem, fault)
    {
      var state := BotState(inFlight, quarantined);
      match fault
      case BeforeRename => return false;
      case AfterRename =>
        file := File(state, file.durable + {state});
        return false;
      case NoFault =>
        file := File(state, {state});
        return true;
    }

    method Record(swap: InFlightSwap, fault: Fault) returns (ok: bool)
      modifies this
      ensures (View(), ok) == Recorded(old(View()), swap, fault)
    {
      if exists e :: e in inFlight && e.hashlock == swap.hashlock {
        return true;
      }
      inFlight := inFlight + [swap];
      ok := Persist(fault);
      if !ok {
        inFlight := inFlight[..|inFlight| - 1];
        assert inFlight == old(inFlight);
      }
    }

    method MarkFunded(h: string, fault: Fault)
      modifies this
      ensures View() == MarkedFunded(old(View()), h, fault)
    {
      var changed := false;
      var i := 0;
      while i < |inFlight|
        modifies this`inFlight
        invariant 0 <= i <= |inFlight| == |old(inFlight)|
        invariant forall k :: 0 <= k < i ==> inFlight[k] == Upgraded(old(inFlight), h)[k]
        invariant forall k :: i <= k < |inFlight| ==> inFlight[k] == old(inFlight)[k]
        invariant changed <==> inFlight != old(inFlight)
      {
        if inFlight[i].hashlock == h && inFlight[i].stage != Funded {
          inFlight := inFlight[i := inFlight[i].(stage := Funded)];
          assert inFlight[i] != old(inFlight)[i];
          changed := true;
        }
        i := i + 1;
      }
      assert inFlight == Upgraded(old(inFlight), h);
      if changed {
        var _ := Persist(fault);
      }
    }

    method Remove(h: string, fault: Fault)
      modifies this
      ensures View() == Removed(old(View()), h, fault)
    {
      var before := |inFlight|;
      inFlight := Without(inFlight, h);
      WithoutMembers(old(inFlight), h);
      if |inFlight| != before {
        var _ := Persist(fault);
      }
    }

    method Quarantine(h: string, reason: string, now: nat, fault: Fault)
      modifies this
      ensures View() == MovedToQuarantine(old(View()), h, reason, now, fault)
    {
      var swapId := SwapIdOf(inFlight, h);
      inFlight := Without(inFlight, h);
      if !exists q :: q in quarantined && q.hashlock == h {
        quarantined := quarantined + [QuarantinedSwap(h, swapId, reason, now)];
      }
      var _ := Persist(fault);
    }
  }
}
