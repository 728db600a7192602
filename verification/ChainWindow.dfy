/** From a time window to a block window: the two binary searches of
    src/eth/report.rs and the window derivation of `cmd_chain_report`
    (src/cli/report.rs). A timestamp lookup may fail; the true block times are
    the parameter `time`. */
module ChainWindow {
  import opened Common

  const PINNED_DEPLOY_BLOCK: nat := 11_417_462

  datatype ReportWindow = ReportWindow(locksFrom: nat, locksTo: nat, outcomesTo: nat)

  ghost predicate NonDecreasing(time: nat -> nat, lo: nat, hi: nat) {
    forall a, b :: lo <= a <= b <= hi ==> time(a) <= time(b)
  }

  /** The number of binary digits of `n`. */
  function Bits(n: nat): nat { if n == 0 then 0 else 1 + Bits(n / 2) }

  function Pow2(n: nat): nat { if n == 0 then 1 else 2 * Pow2(n - 1) }

  lemma {:induction false} BitsIsLogarithmic(n: nat)
    ensures n > 0 ==> Pow2(Bits(n)) <= 2 * n < 2 * Pow2(Bits(n))
    ensures n == 0 ==> Bits(n) == 0
  {
    if n > 0 { BitsIsLogarithmic(n / 2); }
  }

  lemma {:induction false} BitsMonotone(a: nat, b: nat)
    requires a <= b
    ensures Bits(a) <= Bits(b)
  {
    if a > 0 { BitsMonotone(a / 2, b / 2); }
  }

  /** The smallest block of `[lo, hi]` at or after `target`, in logarithmically many lookups. */
  method FirstBlockAtOrAfter(lo0: nat, hi0: nat, target: nat, time: nat -> nat, fails: nat -> bool)
    returns (r: Result<Option<nat>, nat>, lookups: nat)
    ensures r.Err? ==> lo0 <= r.error <= hi0 && fails(r.error)
    ensures lookups <= 1 + Bits(SatSub(hi0, lo0))
    ensures r.Ok? && NonDecreasing(time, lo0, hi0) ==>
      match r.value
      case None => forall b :: lo0 <= b <= hi0 ==> time(b) < target
      case Some(x) => lo0 <= x <= hi0 && forall b :: lo0 <= b <= hi0 ==> (time(b) >= target <==> x <= b)
  {
    lookups := 0;
    if lo0 > hi0 {
      return Ok(None), lookups;
    }
    lookups := 1;
    if fails(hi0) {
      return Err(hi0), lookups;
    }
    if time(hi0) < target {
      return Ok(None), lookups;
    }
    var lo, hi := lo0, hi0;
    while lo < hi
      invariant lo0 <= lo <= hi <= hi0
      invariant time(hi) >= target
      invariant NonDecreasing(time, lo0, hi0) ==> forall b :: lo0 <= b < lo ==> time(b) < target
      invariant lookups + Bits(hi - lo) <= 1 + Bits(hi0 - lo0)
    {
      var mid := lo + (hi - lo) / 2;
      BitsMonotone(hi - mid - 1, (hi - lo) / 2);
      lookups := lookups + 1;
      if fails(mid) {
        return Err(mid), lookups;
      }
      if time(mid) >= target {
        hi := mid;
      } else {
        lo := mid + 1;
      }
    }
    return Ok(Some(lo)), lookups;
  }

  /** The largest block of `[lo, hi]` at or before `target`. */
  method LastBlockAtOrBefore(lo0: nat, hi0: nat, target: nat, time: nat -> nat, fails: nat -> bool)
    returns (r: Result<Option<nat>, nat>, lookups: nat)
    ensures r.Err? ==> lo0 <= r.error <= hi0 && fails(r.error)
    ensures lookups <= 1 + Bits(SatSub(hi0, lo0))
    ensures r.Ok? && NonDecreasing(time, lo0, hi0) ==>
      match r.value
      case None => forall b :: lo0 <= b <= hi0 ==> time(b) > target
      case Some(x) => lo0 <= x <= hi0 && forall b :: lo0 <= b <= hi0 ==> (time(b) <= target <==> b <= x)
    ensures r.Ok? && r.value.None? && lo0 <= hi0 ==> time(lo0) > target
  {
    lookups := 0;
    if lo0 > hi0 {
      return Ok(None), lookups;
    }
    lookups := 1;
    if fails(lo0) {
      return Err(lo0), lookups;
    }
    if time(lo0) > target {
      return Ok(None), lookups;
    }
    var lo, hi := lo0, hi0;
    while lo < hi
      invariant lo0 <= lo <= hi <= hi0
      invariant time(lo) <= target
      invariant NonDecreasing(time, lo0, hi0) ==> forall b :: hi < b <= hi0 ==> time(b) > target
      invariant lookups + Bits(hi - lo) <= 1 + Bits(hi0 - lo0)
    {
      var mid := hi - (hi - lo) / 2;
      BitsMonotone(mid - 1 - lo, (hi - lo) / 2);
      lookups := lookups + 1;
      if fails(mid) {
        return Err(mid), lookups;
      }
      if time(mid) <= target {
        lo := mid;
      } else {
        hi := mid - 1;
      }
    }
    return Ok(Some(lo)), lookups;
  }

  function SearchFloor(isPinnedVenue: bool, fromBlock: Option<nat>): nat {
    match fromBlock
    case Some(b) => b
    case None => if isPinnedVenue then PINNED_DEPLOY_BLOCK else 0
  }

  datatype Args = Args(isPinnedVenue: bool, fromBlock: Option<nat>, since: Option<nat>, until: Option<nat>,
                       toBlock: Option<nat>)
  {
    /** Where the search starts. */
    function Floor(): nat { SearchFloor(isPinnedVenue, fromBlock) }
  }

  /** The blocks the operator asked for: not before an explicit first block, nor, if
      there is none, before the pinned venue was deployed. */
  predicate Asked(a: Args, head: nat, time: nat -> nat, b: nat) {
    && b <= head
    && (a.fromBlock.Some? ==> a.fromBlock.value <= b)
    && (a.fromBlock.None? && a.isPinnedVenue ==> 11_417_462 <= b)
    && (a.since.Some? ==> time(b) >= a.since.value)
    && (if a.until.Some? then time(b) <= a.until.value else a.toBlock.Some? ==> b <= a.toBlock.value)
  }

  ghost predicate SelectsAsked(w: ReportWindow, a: Args, head: nat, time: nat -> nat) {
    forall b: nat :: w.locksFrom <= b <= w.locksTo <==> Asked(a, head, time, b)
  }

  /** The one case the empty window cannot express: it would have to end before
      block 0. The whole chain is newer than `--until`, and the search starts at
      block 0. */
  predicate EndsBeforeGenesis(a: Args, time: nat -> nat) {
    && (if a.fromBlock.Some? then a.fromBlock.value == 0 else !a.isPinnedVenue)
    && a.until.Some? && a.until.value < time(0)
    && (a.since.Some? ==> a.since.value <= time(0))
  }

  /** Window derivation: with block times that do not decrease, the window selects
      exactly the blocks asked for, unless it would have to end before block 0. */
  method DeriveWindow(a: Args, head: nat, time: nat -> nat, fails: nat -> bool) returns (r: Result<ReportWindow, nat>)
    ensures r.Err? ==> fails(r.error)
    ensures r.Ok? && NonDecreasing(time, 0, head) ==>
      (SelectsAsked(r.value, a, head, time) <==> !EndsBeforeGenesis(a, time))
    ensures r.Ok? ==>
      r.value.outcomesTo == if r.value.locksTo < r.value.locksFrom then r.value.locksTo else Max(head, r.value.locksTo)
    ensures r.Ok? && NonDecreasing(time, 0, head) && EndsBeforeGenesis(a, time) ==>
      r.value.locksFrom == r.value.locksTo == 0
  {
    var from := a.Floor();
    if a.since.Some? {
      var first, _ := FirstBlockAtOrAfter(a.Floor(), head, a.since.value, time, fails);
      if first.Err? {
        return Err(first.error);
      }
      from := if first.value.Some? then first.value.value else head + 1;
    }
    var to: nat;
    if a.until.Some? {
      var last, _ := LastBlockAtOrBefore(Min(from, head), head, a.until.value, time, fails);
      if last.Err? {
        return Err(last.error);
      }
      to := if last.value.Some? then last.value.value else SatSub(from, 1);
    } else {
      to := Min(if a.toBlock.Some? then a.toBlock.value else head, head);
    }
    var w := ReportWindow(from, to, if to < from then to else Max(head, to));
    if NonDecreasing(time, 0, head) {
      assert forall b :: a.Floor() <= b <= head ==> ((a.since.Some? ==> time(b) >= a.since.value) <==> from <= b);
      if EndsBeforeGenesis(a, time) {
        assert w.locksFrom <= 0 <= w.locksTo && !Asked(a, head, time, 0);
      } else {
        assert SelectsAsked(w, a, head, time);
      }
    }
    return Ok(w);
  }

  /** A request entirely before the chain begins, on any chain with non-decreasing
      times whose lookups succeed: the derived window is block 0 alone. */
  method GenesisIsSelected(head: nat, until: nat, time: nat -> nat) returns (w: ReportWindow)
    requires NonDecreasing(time, 0, head) && until < time(0)
    ensures w.locksFrom == w.locksTo == 0
    ensures forall b :: !Asked(Args(false, Some(0), None, Some(until), None), head, time, b)
  {
    var r := DeriveWindow(Args(false, Some(0), None, Some(until), None), head, time, _ => false);
    w := r.value;
  }
}
