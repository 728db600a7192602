/** The append-only operations ledger (src/ops.rs): one line per event, replayed
    into a map when the file is loaded. */
module Ops {
  import opened Common

  datatype FailureCode =
    | EthClaimUnresolved | LezRefundUnresolved | PartialLockWedge | PreLockAbandoned | CorruptEntry | Other

  datatype RecordState = Accepted | Completed | Refunded | Failed(code: FailureCode)

  const SCHEMA_VERSION: string := "trial-ops/1"

  datatype OpsRecord = OpsRecord(version: string, hashlock: string, swapId: string, release: string,
                                 acceptedAt: nat, finalAt: Option<nat>, state: RecordState)

  datatype LedgerEvent =
    | AcceptedEvent(hashlock: string, swapId: string, release: string, ts: nat)
    | TerminalEvent(hashlock: string, state: RecordState, ts: nat)

  type Records = map<string, OpsRecord>

  /** A line of the file; blank and unparseable lines are skipped. */
  type Line = Option<LedgerEvent>

  // ----- identifiers -----

  function TrimHexPrefix(s: string): string {
    if |s| >= 2 && s[..2] == "0x" then TrimHexPrefix(s[2..]) else s
  }

  predicate LooksLikeHexId(s: string, bytes: nat) {
    var t := TrimHexPrefix(s);
    |t| == bytes * 2 && forall c :: c in t ==> IsHexDigit(c)
  }

  /** The documented key: lower-case hex digits, two for each byte. */
  predicate Canonical(s: string, bytes: nat) {
    |s| == bytes * 2 && forall c :: c in s ==> '0' <= c <= '9' || 'a' <= c <= 'f'
  }

  /** The documented key of the bytes that an accepted text spells. */
  function KeyOf(s: string): string { LowerAll(TrimHexPrefix(s)) }

  lemma {:induction false} TrimLeavesNoPrefix(s: string)
    ensures var t := TrimHexPrefix(s); !(|t| >= 2 && t[..2] == "0x")
  {
    if |s| >= 2 && s[..2] == "0x" { TrimLeavesNoPrefix(s[2..]); }
  }

  lemma LowerCanonical(t: string, bytes: nat)
    ensures Canonical(LowerAll(t), bytes) <==> |t| == bytes * 2 && forall c :: c in t ==> IsHexDigit(c)
  {
    var u := LowerAll(t);
    if Canonical(u, bytes) {
      forall c | c in t ensures IsHexDigit(c) {
        var i :| 0 <= i < |t| && t[i] == c;
        assert u[i] in u;
      }
    }
    if |t| == bytes * 2 && forall c :: c in t ==> IsHexDigit(c) {
      forall c | c in u ensures '0' <= c <= '9' || 'a' <= c <= 'f' {
        var i :| 0 <= i < |u| && u[i] == c;
        assert t[i] in t;
      }
    }
  }

  /** The guard accepts exactly the texts that spell a documented key, with any
      number of "0x" prefixes and in either case. */
  lemma AcceptedIff(s: string, bytes: nat)
    ensures LooksLikeHexId(s, bytes) <==> Canonical(KeyOf(s), bytes)
  {
    LowerCanonical(TrimHexPrefix(s), bytes);
  }

  predicate HasUpper(s: string) { exists c :: c in s && 'A' <= c <= 'F' }

  predicate HasPrefix(s: string) { |s| >= 2 && s[..2] == "0x" }

  lemma LowerFixed(s: string)
    ensures LowerAll(s) == s <==> !HasUpper(s)
  {
    if HasUpper(s) {
      var c :| c in s && 'A' <= c <= 'F';
      var i :| 0 <= i < |s| && s[i] == c;
      assert LowerAll(s)[i] != s[i];
    } else {
      forall i | 0 <= i < |s| ensures LowerAll(s)[i] == s[i] { assert s[i] in s; }
    }
  }

  /** An accepted text is the documented key exactly if it has no prefix and no
      upper-case digit. */
  lemma DocumentedKeyIff(s: string, bytes: nat)
    requires LooksLikeHexId(s, bytes)
    ensures Canonical(s, bytes) <==> !HasPrefix(s) && !HasUpper(s)
    ensures Canonical(s, bytes) <==> KeyOf(s) == s
  {
    AcceptedIff(s, bytes);
    TrimLeavesNoPrefix(s);
    LowerFixed(s);
    if Canonical(s, bytes) {
      CanonicalIsBare(s, bytes);
    }
    if HasPrefix(s) { TrimShortens(s); }
  }

  lemma {:induction false} TrimShortens(s: string)
    ensures |TrimHexPrefix(s)| <= |s| && (HasPrefix(s) ==> |TrimHexPrefix(s)| < |s|)
  {
    if HasPrefix(s) { TrimShortens(s[2..]); }
  }

  lemma CanonicalIsBare(s: string, bytes: nat)
    requires Canonical(s, bytes)
    ensures !HasPrefix(s) && !HasUpper(s)
  {
    if |s| >= 2 { assert s[..2][1] in s; }
  }

  /** Two accepted texts of the same bytes are both the documented key exactly if they
      are one text and that key; no other spelling shares the documented key. */
  lemma SameKeyIff(s: string, t: string, bytes: nat)
    requires LooksLikeHexId(s, bytes) && LooksLikeHexId(t, bytes) && KeyOf(s) == KeyOf(t)
    ensures Canonical(s, bytes) && Canonical(t, bytes) <==> s == t == KeyOf(s)
    ensures Canonical(t, bytes) ==> (s == t <==> Canonical(s, bytes))
  {
    DocumentedKeyIff(s, bytes);
    DocumentedKeyIff(t, bytes);
  }

  // ----- folding events -----

  function Fold(records: Records, e: LedgerEvent): Records {
    match e
    case AcceptedEvent(h, swapId, release, ts) =>
      if h in records then records
      else records[h := OpsRecord(SCHEMA_VERSION, h, swapId, release, ts, None, Accepted)]
    case TerminalEvent(h, state, ts) =>
      if h in records && records[h].state.Accepted?
      then records[h := records[h].(state := state, finalAt := Some(ts))]
      else records
  }

  function FoldLine(records: Records, l: Line): Records { if l.None? then records else Fold(records, l.value) }

  function Replay(file: seq<Line>): Records {
    if file == [] then map[] else FoldLine(Replay(file[..|file| - 1]), file[|file| - 1])
  }

  lemma ReplayAppend(file: seq<Line>, l: Line)
    ensures Replay(file + [l]) == FoldLine(Replay(file), l)
  {
    assert (file + [l])[..|file + [l]| - 1] == file;
  }

  /** The event would change the records. */
  predicate Effective(records: Records, e: LedgerEvent) {
    if e.AcceptedEvent? then e.hashlock !in records
    else e.hashlock in records && records[e.hashlock].state.Accepted? && !e.state.Accepted?
  }

  lemma EffectiveChanges(records: Records, e: LedgerEvent)
    requires Effective(records, e)
    ensures Fold(records, e) != records
  {
    assert e.AcceptedEvent? ==> e.hashlock in Fold(records, e);
    assert e.TerminalEvent? ==> Fold(records, e)[e.hashlock].state == e.state;
  }

  predicate Final(records: Records, h: string) { h in records && !records[h].state.Accepted? }

  /** The event has had its say: folding it again changes nothing. */
  predicate Settled(records: Records, e: LedgerEvent) {
    if e.AcceptedEvent? then e.hashlock in records else Final(records, e.hashlock)
  }

  /** What no event can undo: a final record stays as it is, and an accepted one
      keeps its identity. */
  ghost predicate Extends(old_: Records, new_: Records) {
    && (forall h :: Final(old_, h) ==> h in new_ && new_[h] == old_[h])
    && forall h :: h in old_ ==>
      h in new_ && new_[h].(state := Accepted, finalAt := None) == old_[h].(state := Accepted, finalAt := None)
  }

  lemma FoldExtends(records: Records, e: LedgerEvent)
    ensures Extends(records, Fold(records, e))
  {
  }

  lemma ExtendsTrans(a: Records, b: Records, c: Records)
    requires Extends(a, b) && Extends(b, c)
    ensures Extends(a, c)
  {
    forall h | Final(a, h) ensures h in c && c[h] == a[h] {
      assert Final(b, h);
    }
  }

  // ----- the file -----

  /** How one append ends. The text and its newline are written separately: a torn
      append leaves all or part of the text without a newline. An unsynced one wrote
      the whole line although it reports an error. */
  datatype Append = Written | NotWritten | WrittenUnsynced | Torn(wholeText: bool)

  /** Whether the file ends in an unterminated line, and how that line reads. */
  datatype Tail = Clean | Fragment(line: Line)

  datatype File = File(lines: seq<Line>, tail: Tail) {
    /** The lines a reader sees; an unterminated last one counts. */
    function Lines(): seq<Line> { if tail.Clean? then lines else lines + [tail.line] }
  }

  /** Text appended to an unterminated line joins it, and the joined line does not parse. */
  function Appended(f: File, e: LedgerEvent, w: Append): File {
    var line := if f.tail.Clean? then Some(e) else None;
    match w
    case NotWritten => f
    case Written => File(f.lines + [line], Clean)
    case WrittenUnsynced => File(f.lines + [line], Clean)
    case Torn(wholeText) => File(f.lines, Fragment(if wholeText then line else None))
  }

  // ----- the ledger and its operations -----

  datatype Ledger = Ledger(file: File, records: Records)

  datatype Op =
    | Accept(hashlock: string, swapId: string, ts: nat, w: Append)
    | Finish(hashlock: string, state: RecordState, ts: nat, w: Append)
    | Reload

  /** The event an operation appends, unless it is refused or has nothing to add. */
  function EventOf(records: Records, op: Op, release: string): Option<LedgerEvent> {
    match op
    case Accept(h, swapId, ts, _) =>
      if !LooksLikeHexId(h, 32) || !LooksLikeHexId(swapId, 32) || h in records then None
      else Some(AcceptedEvent(h, swapId, release, ts))
    case Finish(h, state, ts, _) =>
      if !LooksLikeHexId(h, 32) || h !in records || !records[h].state.Accepted? then None
      else Some(TerminalEvent(h, state, ts))
    case Reload => None
  }

  function Perform(l: Ledger, op: Op, release: string): Ledger {
    if op.Reload? then l.(records := Replay(l.file.Lines()))
    else
      var e := EventOf(l.records, op, release);
      if e.None? then l
      else Ledger(Appended(l.file, e.value, op.w), if op.w.Written? then Fold(l.records, e.value) else l.records)
  }

  function PerformAll(l: Ledger, ops: seq<Op>, release: string): Ledger {
    if ops == [] then l else Perform(PerformAll(l, ops[..|ops| - 1], release), ops[|ops| - 1], release)
  }

  /** Only terminal states are ever reported as outcomes. */
  predicate Proper(op: Op) { op.Finish? ==> !op.state.Accepted? }

  predicate Synced(l: Ledger) { l.records == Replay(l.file.Lines()) }

  /** The unterminated last line holds an event that joining would lose. */
  predicate TailCounts(f: File) { f.tail.Fragment? && Replay(f.Lines()) != Replay(f.lines) }

  /** When an append leaves memory and file in step: a complete one on a terminated
      file; a failed one that put no readable event there and took none away. */
  predicate SafeAppend(f: File, w: Append) {
    match w
    case NotWritten => true
    case Written => f.tail.Clean?
    case WrittenUnsynced => f.tail.Fragment? && !TailCounts(f)
    case Torn(wholeText) => if f.tail.Clean? then !wholeText else !TailCounts(f)
  }

  predicate Safe(l: Ledger, op: Op, release: string) {
    !op.Reload? && EventOf(l.records, op, release).Some? ==> SafeAppend(l.file, op.w)
  }

  predicate SafeRun(l: Ledger, ops: seq<Op>, release: string) {
    ops == [] || (
      && SafeRun(l, ops[..|ops| - 1], release)
      && Proper(ops[|ops| - 1]) && Safe(PerformAll(l, ops[..|ops| - 1], release), ops[|ops| - 1], release))
  }

  lemma EventIsEffective(records: Records, op: Op, release: string)
    requires Proper(op)
    ensures EventOf(records, op, release).Some? ==> Effective(records, EventOf(records, op, release).value)
  {
  }

  lemma ReplayTail(f: File)
    requires f.tail.Fragment?
    ensures Replay(f.Lines()) == FoldLine(Replay(f.lines), f.tail.line)
  {
    ReplayAppend(f.lines, f.tail.line);
  }

  /** An event that would change what a fragment adds cannot be undone by losing both. */
  lemma JoinLosesEvent(before: Records, line: Line, e: LedgerEvent)
    requires Effective(FoldLine(before, line), e)
    ensures Fold(FoldLine(before, line), e) != before
  {
    var after := FoldLine(before, line);
    if e.AcceptedEvent? {
      assert e.hashlock in Fold(after, e) && e.hashlock !in before;
    } else {
      assert Fold(after, e)[e.hashlock].state == e.state;
      assert e.hashlock in before ==> before[e.hashlock].state.Accepted?;
    }
  }

  lemma WrittenIff(l: Ledger, e: LedgerEvent)
    requires Synced(l) && Effective(l.records, e)
    ensures Fold(l.records, e) == Replay(Appended(l.file, e, Written).Lines()) <==> l.file.tail.Clean?
  {
    if l.file.tail.Clean? {
      ReplayAppend(l.file.lines, Some(e));
    } else {
      ReplayTail(l.file);
      ReplayAppend(l.file.lines, None);
      JoinLosesEvent(Replay(l.file.lines), l.file.tail.line, e);
    }
  }

  lemma UnwrittenIff(l: Ledger, e: LedgerEvent, w: Append)
    requires Synced(l) && Effective(l.records, e) && !w.Written?
    ensures l.records == Replay(Appended(l.file, e, w).Lines()) <==> SafeAppend(l.file, w)
  {
    EffectiveChanges(l.records, e);
    ReplayAppend(l.file.lines, Some(e));
    ReplayAppend(l.file.lines, None);
  }

  /** Memory stays the replay of the file exactly if the append is a safe one. */
  lemma SyncedIff(l: Ledger, op: Op, release: string)
    requires Synced(l) && Proper(op)
    ensures Synced(Perform(l, op, release)) <==> Safe(l, op, release)
  {
    var e := EventOf(l.records, op, release);
    if e.Some? {
      EventIsEffective(l.records, op, release);
      if op.w.Written? { WrittenIff(l, e.value); } else { UnwrittenIff(l, e.value, op.w); }
    }
  }

  lemma {:induction false} RunSynced(l: Ledger, ops: seq<Op>, release: string)
    requires Synced(l) && SafeRun(l, ops, release)
    ensures Synced(PerformAll(l, ops, release))
  {
    if ops != [] {
      RunSynced(l, ops[..|ops| - 1], release);
      SyncedIff(PerformAll(l, ops[..|ops| - 1], release), ops[|ops| - 1], release);
    }
  }

  /** Every append either took place in full or not at all. */
  predicate AllOrNothing(ops: seq<Op>) {
    forall i :: 0 <= i < |ops| ==> Proper(ops[i]) && (ops[i].Reload? || ops[i].w.Written? || ops[i].w.NotWritten?)
  }

  /** On a terminated file, all-or-nothing appends are safe ones. */
  lemma {:induction false} AllOrNothingIsSafe(l: Ledger, ops: seq<Op>, release: string)
    requires l.file.tail.Clean? && AllOrNothing(ops)
    ensures SafeRun(l, ops, release) && PerformAll(l, ops, release).file.tail.Clean?
  {
    if ops != [] { AllOrNothingIsSafe(l, ops[..|ops| - 1], release); }
  }

  const EMPTY_LEDGER: Ledger := Ledger(File([], Clean), map[])

  /** A torn append, even of a part of a line, takes the next one with it, although
      that one was written and synced in full. */
  lemma TornAppendLosesNext(a: string, b: string, swapId: string, ts: nat, release: string)
    requires LooksLikeHexId(a, 32) && LooksLikeHexId(b, 32) && LooksLikeHexId(swapId, 32)
    ensures var l := Perform(EMPTY_LEDGER, Accept(a, swapId, ts, Torn(false)), release);
      var t := Perform(l, Accept(b, swapId, ts, Written), release);
      && Synced(l) && b in t.records && b !in Perform(t, Reload, release).records
  {
    var l := Perform(EMPTY_LEDGER, Accept(a, swapId, ts, Torn(false)), release);
    var t := Perform(l, Accept(b, swapId, ts, Written), release);
    var none: seq<Line> := [];
    ReplayAppend(none, None);
    assert l.file.Lines() == none + [None] && t.file.Lines() == none + [None];
  }

  /** One swap reported under two spellings of its hashlock is counted twice. */
  lemma TwoSpellingsTwoRecords(h: string, swapId: string, ts: nat, release: string)
    requires LooksLikeHexId(h, 32) && LooksLikeHexId(swapId, 32)
    ensures var l := PerformAll(EMPTY_LEDGER, [Accept(h, swapId, ts, Written), Accept("0x" + h, swapId, ts, Written)],
                                release);
      KeyOf("0x" + h) == KeyOf(h) && l.records.Keys == {h, "0x" + h} && h != "0x" + h
  {
    assert ("0x" + h)[..2] == "0x" && ("0x" + h)[2..] == h;
    assert |"0x" + h| != |h|;
    var ops := [Accept(h, swapId, ts, Written), Accept("0x" + h, swapId, ts, Written)];
    var one := Perform(EMPTY_LEDGER, ops[0], release);
    assert ops[..1] == [ops[0]] && [ops[0]][..0] == [];
    assert PerformAll(EMPTY_LEDGER, ops[..1], release) == one && one.records.Keys == {h};
    assert Perform(one, ops[1], release).records.Keys == {h, "0x" + h};
  }

  lemma StepExtends(l: Ledger, op: Op, release: string)
    requires Synced(l)
    ensures Extends(l.records, Perform(l, op, release).records)
  {
    var e := EventOf(l.records, op, release);
    if e.Some? { FoldExtends(l.records, e.value); }
  }

  /** Over every run and reload, final records never change, no accepted swap is
      forgotten, and its identity is fixed. */
  lemma {:induction false} RunExtends(l: Ledger, ops: seq<Op>, release: string)
    requires Synced(l) && SafeRun(l, ops, release)
    ensures Extends(l.records, PerformAll(l, ops, release).records)
  {
    if ops != [] {
      var init := ops[..|ops| - 1];
      var m := PerformAll(l, init, release);
      RunSynced(l, init, release);
      RunExtends(l, init, release);
      StepExtends(m, ops[|ops| - 1], release);
      ExtendsTrans(l.records, m.records, PerformAll(l, ops, release).records);
    }
  }

  /** Every event that the recorder appended after the first `n` lines is settled. */
  ghost predicate AllSettled(l: Ledger, n: nat) {
    n <= |l.file.Lines()| && forall k :: n <= k < |l.file.Lines()| && l.file.Lines()[k].Some? ==>
      Settled(l.records, l.file.Lines()[k].value)
  }

  lemma {:induction false} RunSettles(l: Ledger, ops: seq<Op>, release: string)
    requires Synced(l) && SafeRun(l, ops, release)
    ensures AllSettled(PerformAll(l, ops, release), |l.file.Lines()|)
  {
    if ops != [] {
      var init, op := ops[..|ops| - 1], ops[|ops| - 1];
      RunSynced(l, init, release);
      RunSettles(l, init, release);
      StepSettles(PerformAll(l, init, release), op, release, |l.file.Lines()|);
    }
  }

  /** Lines already seen stay, except that a joined last line reads as nothing. */
  lemma AppendedLines(f: File, e: LedgerEvent, w: Append, k: nat)
    requires SafeAppend(f, w) && k < |Appended(f, e, w).Lines()| && Appended(f, e, w).Lines()[k].Some?
    ensures |f.Lines()| <= |Appended(f, e, w).Lines()|
    ensures if k < |f.Lines()| then Appended(f, e, w).Lines()[k] == f.Lines()[k]
      else w.Written? && Appended(f, e, w).Lines()[k] == Some(e)
  {
  }

  lemma StepSettles(m: Ledger, op: Op, release: string, n: nat)
    requires Synced(m) && AllSettled(m, n) && Proper(op) && Safe(m, op, release)
    ensures AllSettled(Perform(m, op, release), n)
  {
    var e := EventOf(m.records, op, release);
    var m' := Perform(m, op, release);
    if e.Some? {
      FoldExtends(m.records, e.value);
      forall k | n <= k < |m'.file.Lines()| && m'.file.Lines()[k].Some?
        ensures Settled(m'.records, m'.file.Lines()[k].value)
      {
        AppendedLines(m.file, e.value, op.w, k);
        EventIsEffective(m.records, op, release);
      }
    }
  }

  predicate WrittenSince(file: seq<Line>, n: nat, e: LedgerEvent) {
    exists k :: n <= k < |file| && file[k] == Some(e)
  }

  /** The lines of a file to which more events were delivered. */
  function WithLines(file: seq<Line>, es: seq<LedgerEvent>): seq<Line> {
    file + seq(|es|, i requires 0 <= i < |es| => Some(es[i]))
  }

  lemma {:induction false} SettledLines(file: seq<Line>, es: seq<LedgerEvent>)
    requires forall e :: e in es ==> Settled(Replay(file), e)
    ensures Replay(WithLines(file, es)) == Replay(file)
  {
    if es == [] {
      assert WithLines(file, es) == file;
    } else {
      var init, e := es[..|es| - 1], es[|es| - 1];
      SettledLines(file, init);
      assert WithLines(file, es) == WithLines(file, init) + [Some(e)];
      ReplayAppend(WithLines(file, init), Some(e));
      assert e in es;
    }
  }

  /** Delivering again any of the events that the recorder wrote, in any order and
      any number of times, changes nothing. */
  lemma RedeliveryIsNoOp(l: Ledger, ops: seq<Op>, release: string, again: seq<LedgerEvent>)
    requires Synced(l) && SafeRun(l, ops, release)
    requires forall e :: e in again ==> WrittenSince(PerformAll(l, ops, release).file.Lines(), |l.file.Lines()|, e)
    ensures var t := PerformAll(l, ops, release); Replay(WithLines(t.file.Lines(), again)) == t.records
  {
    RunSettles(l, ops, release);
    RunSynced(l, ops, release);
    var t := PerformAll(l, ops, release);
    forall e | e in again ensures Settled(t.records, e) {
      var k :| |l.file.Lines()| <= k < |t.file.Lines()| && t.file.Lines()[k] == Some(e);
    }
    SettledLines(t.file.Lines(), again);
  }

  /** A terminal event without an acceptance never creates a record. */
  lemma {:induction false} RecordsWereAccepted(file: seq<Line>, h: string)
    requires h in Replay(file)
    ensures exists k :: 0 <= k < |file| && file[k].Some? && file[k].value.AcceptedEvent? && file[k].value.hashlock == h
  {
    var init, last := file[..|file| - 1], file[|file| - 1];
    if h in Replay(init) {
      RecordsWereAccepted(init, h);
      var k :| 0 <= k < |init| && init[k].Some? && init[k].value.AcceptedEvent? && init[k].value.hashlock == h;
      assert file[k] == init[k];
    } else {
      assert file[|file| - 1].value.AcceptedEvent?;
    }
  }

  // ----- what a record says, from the lines -----

  predicate AcceptsAt(file: seq<Line>, i: nat, h: string) {
    i < |file| && file[i].Some? && file[i].value.AcceptedEvent? && file[i].value.hashlock == h
  }

  predicate EndsAt(file: seq<Line>, j: nat, h: string) {
    j < |file| && file[j].Some? && file[j].value.TerminalEvent? && file[j].value.hashlock == h
  }

  /** A terminal event with a terminal state. */
  predicate SettlesAt(file: seq<Line>, j: nat, h: string) { EndsAt(file, j, h) && !file[j].value.state.Accepted? }

  predicate FirstAccept(file: seq<Line>, i: nat, h: string) {
    AcceptsAt(file, i, h) && forall k: nat :: k < i ==> !AcceptsAt(file, k, h)
  }

  predicate FirstSettle(file: seq<Line>, i: nat, j: nat, h: string) {
    i < j && SettlesAt(file, j, h) && forall k: nat :: i < k < j ==> !SettlesAt(file, k, h)
  }

  predicate StaysOpen(file: seq<Line>, i: nat, h: string) {
    forall k: nat :: i < k < |file| ==> !SettlesAt(file, k, h)
  }

  function AllButLast(file: seq<Line>): seq<Line>
    requires file != []
  {
    file[..|file| - 1]
  }

  lemma SameLines(file: seq<Line>, k: nat, h: string)
    requires k < |file| - 1
    ensures AcceptsAt(AllButLast(file), k, h) <==> AcceptsAt(file, k, h)
    ensures EndsAt(AllButLast(file), k, h) <==> EndsAt(file, k, h)
    ensures SettlesAt(AllButLast(file), k, h) <==> SettlesAt(file, k, h)
  {
    assert AllButLast(file)[k] == file[k];
  }

  lemma FirstAcceptBefore(file: seq<Line>, i: nat, h: string)
    requires FirstAccept(file, i, h)
    ensures i < |file| - 1 ==> FirstAccept(AllButLast(file), i, h)
    ensures i == |file| - 1 ==> h !in Replay(AllButLast(file))
  {
    var init := AllButLast(file);
    if i < |file| - 1 {
      forall k: nat | k <= i ensures AcceptsAt(init, k, h) <==> AcceptsAt(file, k, h) { SameLines(file, k, h); }
    } else if h in Replay(init) {
      RecordsWereAccepted(init, h);
      var k: nat :| k < |init| && init[k].Some? && init[k].value.AcceptedEvent? && init[k].value.hashlock == h;
      SameLines(file, k, h);
    }
  }

  lemma {:induction false} SomeFirstAccept(file: seq<Line>, k: nat, h: string) returns (f: nat)
    requires AcceptsAt(file, k, h)
    ensures FirstAccept(file, f, h)
    decreases k
  {
    if j: nat :| j < k && AcceptsAt(file, j, h) {
      f := SomeFirstAccept(file, j, h);
    } else {
      f := k;
    }
  }

  /** There is a record exactly if some line accepts the hashlock. */
  lemma RecordIff(file: seq<Line>, h: string)
    ensures h in Replay(file) <==> exists i: nat :: FirstAccept(file, i, h)
  {
    if h in Replay(file) {
      RecordsWereAccepted(file, h);
      var k: nat :| k < |file| && file[k].Some? && file[k].value.AcceptedEvent? && file[k].value.hashlock == h;
      var f := SomeFirstAccept(file, k, h);
    }
    if i: nat :| FirstAccept(file, i, h) { IdentityIsFirst(file, i, h); }
  }

  /** A record's identity is that of the first acceptance of its hashlock. */
  lemma {:induction false} IdentityIsFirst(file: seq<Line>, i: nat, h: string)
    requires FirstAccept(file, i, h)
    ensures h in Replay(file)
    ensures var r, e := Replay(file)[h], file[i].value;
      && r.version == "trial-ops/1" && r.hashlock == h
      && r.swapId == e.swapId && r.release == e.release && r.acceptedAt == e.ts
  {
    FirstAcceptBefore(file, i, h);
    if i < |file| - 1 {
      assert AllButLast(file)[i] == file[i];
      IdentityIsFirst(AllButLast(file), i, h);
    }
  }

  /** As long as no terminal state follows the acceptance, the record is open, and
      without a final time unless a line gave it one. */
  lemma {:induction false} OpenUntilSettled(file: seq<Line>, i: nat, h: string)
    requires FirstAccept(file, i, h) && StaysOpen(file, i, h)
    ensures h in Replay(file) && Replay(file)[h].state.Accepted?
    ensures (forall k: nat :: i < k < |file| ==> !EndsAt(file, k, h)) ==> Replay(file)[h].finalAt.None?
  {
    FirstAcceptBefore(file, i, h);
    if i < |file| - 1 {
      var init := AllButLast(file);
      forall k: nat | i < k < |init|
        ensures !SettlesAt(init, k, h) && (EndsAt(init, k, h) <==> EndsAt(file, k, h))
      {
        SameLines(file, k, h);
      }
      OpenUntilSettled(init, i, h);
      assert !SettlesAt(file, |file| - 1, h);
      assert EndsAt(file, |file| - 1, h) || Replay(file)[h] == Replay(init)[h];
    }
  }

  /** From then on its state and time are those of the first terminal state. */
  lemma {:induction false} SettledByFirst(file: seq<Line>, i: nat, j: nat, h: string)
    requires FirstAccept(file, i, h) && FirstSettle(file, i, j, h)
    ensures h in Replay(file) && Replay(file)[h].state == file[j].value.state
    ensures Replay(file)[h].finalAt == Some(file[j].value.ts)
  {
    var init := AllButLast(file);
    FirstAcceptBefore(file, i, h);
    forall k: nat | k < |init| ensures SettlesAt(init, k, h) <==> SettlesAt(file, k, h) { SameLines(file, k, h); }
    if j < |file| - 1 {
      assert init[j] == file[j];
      SettledByFirst(init, i, j, h);
    } else {
      OpenUntilSettled(init, i, h);
    }
  }

  lemma {:induction false} SomeFirstSettle(file: seq<Line>, i: nat, j: nat, h: string) returns (f: nat)
    requires i < j && SettlesAt(file, j, h)
    ensures FirstSettle(file, i, f, h)
    decreases j
  {
    if k: nat :| i < k < j && SettlesAt(file, k, h) {
      f := SomeFirstSettle(file, i, k, h);
    } else {
      f := j;
    }
  }

  /** A record is open exactly if no terminal state follows its acceptance. */
  lemma OpenIff(file: seq<Line>, i: nat, h: string)
    requires FirstAccept(file, i, h)
    ensures h in Replay(file) && (Replay(file)[h].state.Accepted? <==> StaysOpen(file, i, h))
  {
    if StaysOpen(file, i, h) {
      OpenUntilSettled(file, i, h);
    } else {
      var j: nat :| i < j < |file| && SettlesAt(file, j, h);
      var f := SomeFirstSettle(file, i, j, h);
      SettledByFirst(file, i, f, h);
    }
  }

  /** What one acceptance leaves in memory: a new open record, if both ids pass, the
      hashlock is new and the line was written; and nothing otherwise. */
  lemma AcceptLeaves(l: Ledger, h: string, swapId: string, ts: nat, w: Append, release: string)
    ensures Perform(l, Accept(h, swapId, ts, w), release).records
      == if LooksLikeHexId(h, 32) && LooksLikeHexId(swapId, 32) && h !in l.records && w.Written?
         then l.records[h := OpsRecord("trial-ops/1", h, swapId, release, ts, None, Accepted)] else l.records
  {
  }

  /** What one ending leaves in memory: exactly this state and time on an open record
      of the hashlock, if the line was written. */
  lemma FinishLeaves(l: Ledger, h: string, state: RecordState, ts: nat, w: Append, release: string)
    ensures Perform(l, Finish(h, state, ts, w), release).records
      == if LooksLikeHexId(h, 32) && h in l.records && l.records[h].state.Accepted? && w.Written?
         then l.records[h := l.records[h].(state := state, finalAt := Some(ts))] else l.records
  {
  }

  /** A reported ending that was written is the record's for good, over every safe run
      and reload that follows. */
  lemma FinishedStays(l: Ledger, h: string, state: RecordState, ts: nat, release: string, more: seq<Op>)
    requires Synced(l) && l.file.tail.Clean? && LooksLikeHexId(h, 32) && !state.Accepted?
    requires h in l.records && l.records[h].state.Accepted?
    requires SafeRun(Perform(l, Finish(h, state, ts, Written), release), more, release)
    ensures var r := PerformAll(Perform(l, Finish(h, state, ts, Written), release), more, release).records;
      h in r && r[h].state == state && r[h].finalAt == Some(ts)
  {
    var op := Finish(h, state, ts, Written);
    var t := Perform(l, op, release);
    SyncedIff(l, op, release);
    FinishLeaves(l, h, state, ts, Written, release);
    RunExtends(t, more, release);
    assert Final(t.records, h);
  }

  // ----- the report -----

  /** The hashlocks of `keys` whose record is in a given state. */
  function InState(records: Records, keys: set<string>, state: RecordState): set<string>
    requires keys <= records.Keys
  {
    set h | h in keys && records[h].state == state
  }

  function FailedOnes(records: Records, keys: set<string>): set<string>
    requires keys <= records.Keys
  {
    set h | h in keys && records[h].state.Failed?
  }

  datatype Tallies = Tallies(completed: nat, refunded: nat, failed: nat, byCode: map<FailureCode, nat>)

  function CodeCount(t: Tallies, c: FailureCode): nat { if c in t.byCode then t.byCode[c] else 0 }

  /** The figures count exactly the swaps of `keys`, each by its state. */
  ghost predicate TalliesOf(t: Tallies, records: Records, keys: set<string>)
    requires keys <= records.Keys
  {
    && t.completed == |InState(records, keys, Completed)|
    && t.refunded == |InState(records, keys, Refunded)|
    && t.failed == |FailedOnes(records, keys)|
    && (forall c :: c in t.byCode ==> t.byCode[c] > 0)
    && forall c :: CodeCount(t, c) == |InState(records, keys, Failed(c))|
  }

  function Tallied(t: Tallies, state: RecordState): Tallies {
    match state
    case Accepted => t
    case Completed => t.(completed := t.completed + 1)
    case Refunded => t.(refunded := t.refunded + 1)
    case Failed(c) => t.(failed := t.failed + 1, byCode := t.byCode[c := CodeCount(t, c) + 1])
  }

  lemma InStateAdd(records: Records, keys: set<string>, h: string, state: RecordState)
    requires keys <= records.Keys && h in records && h !in keys
    ensures |InState(records, keys + {h}, state)| == |InState(records, keys, state)|
      + (if records[h].state == state then 1 else 0)
  {
    if records[h].state == state {
      assert InState(records, keys + {h}, state) == InState(records, keys, state) + {h};
    } else {
      assert InState(records, keys + {h}, state) == InState(records, keys, state);
    }
  }

  lemma FailedAdd(records: Records, keys: set<string>, h: string)
    requires keys <= records.Keys && h in records && h !in keys
    ensures |FailedOnes(records, keys + {h})| == |FailedOnes(records, keys)|
      + (if records[h].state.Failed? then 1 else 0)
  {
    if records[h].state.Failed? {
      assert FailedOnes(records, keys + {h}) == FailedOnes(records, keys) + {h};
    } else {
      assert FailedOnes(records, keys + {h}) == FailedOnes(records, keys);
    }
  }

  lemma TalliedOne(t: Tallies, records: Records, keys: set<string>, h: string)
    requires keys <= records.Keys && h in records && h !in keys && TalliesOf(t, records, keys)
    ensures TalliesOf(Tallied(t, records[h].state), records, keys + {h})
  {
    InStateAdd(records, keys, h, Completed);
    InStateAdd(records, keys, h, Refunded);
    FailedAdd(records, keys, h);
    var t' := Tallied(t, records[h].state);
    forall c ensures CodeCount(t', c) == |InState(records, keys + {h}, Failed(c))| {
      InStateAdd(records, keys, h, Failed(c));
    }
  }

  /** Codes in the order in which the report lists them. */
  const CODES: seq<FailureCode> :=
    [EthClaimUnresolved, LezRefundUnresolved, PartialLockWedge, PreLockAbandoned, CorruptEntry, Other]

  datatype OpsReport = OpsReport(acceptedTotal: nat, completed: nat, refunded: nat, failed: nat,
                                 failedByCode: seq<(FailureCode, nat)>, inFlight: nat)

  function Rows(byCode: map<FailureCode, nat>, codes: seq<FailureCode>): seq<(FailureCode, nat)> {
    if codes == [] then []
    else (if codes[0] in byCode then [(codes[0], byCode[codes[0]])] else []) + Rows(byCode, codes[1..])
  }

  function RowSum(rows: seq<(FailureCode, nat)>): nat { if rows == [] then 0 else rows[0].1 + RowSum(rows[1..]) }

  function WithCodes(records: Records, keys: set<string>, codes: seq<FailureCode>): set<string>
    requires keys <= records.Keys
  {
    set h | h in keys && records[h].state.Failed? && records[h].state.code in codes
  }

  lemma WithCodesHead(records: Records, keys: set<string>, codes: seq<FailureCode>)
    requires keys <= records.Keys && codes != [] && codes[0] !in codes[1..]
    ensures |WithCodes(records, keys, codes)| == |InState(records, keys, Failed(codes[0]))|
      + |WithCodes(records, keys, codes[1..])|
  {
    assert codes == [codes[0]] + codes[1..];
    assert WithCodes(records, keys, codes) == InState(records, keys, Failed(codes[0]))
      + WithCodes(records, keys, codes[1..]);
  }

  lemma RowSumHead(byCode: map<FailureCode, nat>, codes: seq<FailureCode>)
    requires codes != []
    ensures RowSum(Rows(byCode, codes)) == (if codes[0] in byCode then byCode[codes[0]] else 0)
      + RowSum(Rows(byCode, codes[1..]))
  {
    if codes[0] in byCode {
      assert Rows(byCode, codes)[1..] == Rows(byCode, codes[1..]);
    } else {
      assert Rows(byCode, codes) == Rows(byCode, codes[1..]);
    }
  }

  /** The rows of the codes listed add up to the failures with those codes. */
  lemma {:induction false} RowsSum(t: Tallies, records: Records, keys: set<string>, codes: seq<FailureCode>)
    requires keys <= records.Keys && TalliesOf(t, records, keys)
    requires forall i, j :: 0 <= i < j < |codes| ==> codes[i] != codes[j]
    ensures RowSum(Rows(t.byCode, codes)) == |WithCodes(records, keys, codes)|
  {
    if codes == [] {
      assert WithCodes(records, keys, codes) == {};
    } else {
      RowsSum(t, records, keys, codes[1..]);
      WithCodesHead(records, keys, codes);
      assert CodeCount(t, codes[0]) == |InState(records, keys, Failed(codes[0]))|;
      RowSumHead(t.byCode, codes);
    }
  }

  lemma PartitionByState(records: Records)
    ensures |records| == |InState(records, records.Keys, Accepted)| + |InState(records, records.Keys, Completed)|
      + |InState(records, records.Keys, Refunded)| + |FailedOnes(records, records.Keys)|
  {
    var a, c := InState(records, records.Keys, Accepted), InState(records, records.Keys, Completed);
    var r, f := InState(records, records.Keys, Refunded), FailedOnes(records, records.Keys);
    assert records.Keys == a + c + r + f;
    assert |records.Keys| == |records|;
  }

  lemma RowsCoverFailed(t: Tallies, records: Records)
    requires TalliesOf(t, records, records.Keys)
    ensures RowSum(Rows(t.byCode, CODES)) == t.failed
  {
    RowsSum(t, records, records.Keys, CODES);
    forall h | h in FailedOnes(records, records.Keys) ensures h in WithCodes(records, records.Keys, CODES) {
      EveryCodeListed(records[h].state.code);
    }
    assert WithCodes(records, records.Keys, CODES) == FailedOnes(records, records.Keys);
  }

  lemma EveryCodeListed(c: FailureCode)
    ensures c in CODES
  {
    match c
    case EthClaimUnresolved => assert CODES[0] == c;
    case LezRefundUnresolved => assert CODES[1] == c;
    case PartialLockWedge => assert CODES[2] == c;
    case PreLockAbandoned => assert CODES[3] == c;
    case CorruptEntry => assert CODES[4] == c;
    case Other => assert CODES[5] == c;
  }

  /** The counting loop of `report`. */
  method CountStates(records: Records) returns (t: Tallies)
    ensures TalliesOf(t, records, records.Keys)
  {
    t := Tallies(0, 0, 0, map[]);
    var todo := records.Keys;
    ghost var done: set<string> := {};
    NothingTallied(records);
    while todo != {}
      invariant done + todo == records.Keys && done !! todo
      invariant TalliesOf(t, records, done)
      decreases todo
    {
      var h :| h in todo;
      TalliedOne(t, records, done, h);
      t := Tallied(t, records[h].state);
      todo, done := todo - {h}, done + {h};
    }
    assert done == records.Keys;
  }

  lemma NothingTallied(records: Records)
    ensures TalliesOf(Tallies(0, 0, 0, map[]), records, {})
  {
    forall s ensures InState(records, {}, s) == {} {}
    assert FailedOnes(records, {}) == {};
  }

  /** What the report says of the records. */
  ghost predicate ReportOf(o: OpsReport, records: Records) {
    && o.acceptedTotal == |records| == o.completed + o.refunded + o.failed + o.inFlight
    && o.completed == |InState(records, records.Keys, Completed)|
    && o.refunded == |InState(records, records.Keys, Refunded)|
    && o.failed == |FailedOnes(records, records.Keys)| == RowSum(o.failedByCode)
    && o.inFlight == |InState(records, records.Keys, Accepted)|
    && exists byCode :: o.failedByCode == Rows(byCode, CODES) && CountsByCode(byCode, records)
  }

  ghost predicate CountsByCode(byCode: map<FailureCode, nat>, records: Records) {
    && (forall c :: c in byCode ==> byCode[c] == |InState(records, records.Keys, Failed(c))| > 0)
    && (forall c :: c !in byCode ==> InState(records, records.Keys, Failed(c)) == {})
  }

  lemma TalliesByCode(t: Tallies, records: Records)
    requires TalliesOf(t, records, records.Keys)
    ensures CountsByCode(t.byCode, records)
  {
    forall c ensures c in t.byCode ==> t.byCode[c] == |InState(records, records.Keys, Failed(c))|
      ensures c !in t.byCode ==> InState(records, records.Keys, Failed(c)) == {}
    {
      assert CodeCount(t, c) == |InState(records, records.Keys, Failed(c))|;
    }
  }

  /** `report`: unique counts by outcome. The totals add up, with nothing lost to
      the saturating subtraction, and the rows by code add up to the failures. */
  method Report(records: Records) returns (o: OpsReport)
    ensures ReportOf(o, records)
  {
    var t := CountStates(records);
    PartitionByState(records);
    RowsCoverFailed(t, records);
    TalliesByCode(t, records);
    o := OpsReport(|records|, t.completed, t.refunded, t.failed, Rows(t.byCode, CODES),
                   SatSub(|records|, t.completed + t.refunded + t.failed));
  }

  // ----- the ledger, updated in place -----

  class OpsLedger {
    var file: File
    var records: Records
    const release: string

    function View(): Ledger
      reads this
    {
      Ledger(file, records)
    }

    /** `load`: replays the lines that parse. */
    constructor (file: File, release: string)
      ensures this.file == file && this.release == release && Synced(View())
    {
      var lines := file.Lines();
      this.file := file;
      this.release := release;
      records := map[];
      new;
      var i := 0;
      while i < |lines|
        invariant 0 <= i <= |lines| && this.file == file && this.release == release && records == Replay(lines[..i])
      {
        assert lines[..i + 1] == lines[..i] + [lines[i]];
        ReplayAppend(lines[..i], lines[i]);
        if lines[i].Some? {
          records := Fold(records, lines[i].value);
        }
        i := i + 1;
      }
      assert lines[..i] == lines;
    }

    /** `append`, with the way it ends given. */
    method AppendLine(e: LedgerEvent, w: Append) returns (ok: bool)
      modifies this`file
      ensures ok == w.Written?
      ensures file == Appended(old(file), e, w)
    {
      var line := if file.tail.Clean? then Some(e) else None;
      match w {
        case NotWritten =>
        case Torn(wholeText) => file := file.(tail := Fragment(if wholeText then line else None));
        case Written => file := File(file.lines + [line], Clean);
        case WrittenUnsynced => file := File(file.lines + [line], Clean);
      }
      return w.Written?;
    }

    method RecordAccepted(hashlock: string, swapId: string, ts: nat, w: Append)
      modifies this
      ensures View() == Perform(old(View()), Accept(hashlock, swapId, ts, w), release)
      ensures var taken := LooksLikeHexId(hashlock, 32) && LooksLikeHexId(swapId, 32) && hashlock !in old(records);
        records == if taken && w.Written?
        then old(records)[hashlock := OpsRecord("trial-ops/1", hashlock, swapId, release, ts, None, Accepted)]
        else old(records)
    {
      if !LooksLikeHexId(hashlock, 32) || !LooksLikeHexId(swapId, 32) {
        return;
      }
      if hashlock in records {
        return;
      }
      var e := AcceptedEvent(hashlock, swapId, release, ts);
      var ok := AppendLine(e, w);
      if !ok {
        return;
      }
      records := Fold(records, e);
    }

    method RecordTerminal(hashlock: string, state: RecordState, ts: nat, w: Append)
      modifies this
      ensures View() == Perform(old(View()), Finish(hashlock, state, ts, w), release)
      ensures var known := LooksLikeHexId(hashlock, 32) && hashlock in old(records);
        records == if known && old(records)[hashlock].state.Accepted? && w.Written?
        then old(records)[hashlock := old(records)[hashlock].(state := state, finalAt := Some(ts))]
        else old(records)
    {
      if !LooksLikeHexId(hashlock, 32) {
        return;
      }
      if hashlock !in records || !records[hashlock].state.Accepted? {
        return;
      }
      var e := TerminalEvent(hashlock, state, ts);
      var ok := AppendLine(e, w);
      if !ok {
        return;
      }
      records := Fold(records, e);
    }
  }
}
