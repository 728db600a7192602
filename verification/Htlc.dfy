/** The two hash-time-locked contracts one swap runs through, and the steps the
    world can take between two actions of a swap participant.

    LEZ side: the guest program (programs/lez-htlc/methods/guest/src/main.rs),
    restricted to the escrow account of one hashlock. ETH side: one entry of
    EthHTLC (contracts/src/EthHTLC.sol). Time is in milliseconds. SHA-256 is the
    parameter `sha`. */
module Htlc {
  import opened Common

  type Account = nat
  type Bytes = seq<nat>
  type Digest = Bytes -> Bytes

  datatype Phase = Locked | Claimed | Refunded

  datatype Escrow = Escrow(hashlock: Bytes, makerId: Account, takerId: Account, amount: nat, timelock: nat,
                           phase: Phase, preimage: Option<Bytes>)

  /** The escrow account: its data, if the program ever claimed it, and its balance. */
  datatype Lez = Lez(escrow: Option<Escrow>, balance: nat)

  datatype EthPhase = Empty | Open | EthClaimed | EthRefunded

  datatype Eth = Eth(phase: EthPhase, hashlock: Bytes, timelock: nat)

  datatype World = World(now: nat, lez: Lez, eth: Eth)

  // ----- the contracts -----

  /** `execute_lock`: only an untouched account can be locked. */
  function ExecuteLock(l: Lez, hashlock: Bytes, maker: Account, taker: Account, amount: nat,
                       timelock: nat): Option<Lez> {
    if maker != taker && l == Lez(None, 0) then
      Some(Lez(Some(Escrow(hashlock, maker, taker, amount, timelock, Locked, None)), 0))
    else None
  }

  /** `execute_claim`: the designated taker, a 32-byte preimage of the hashlock, a funded escrow. */
  function ExecuteClaim(sha: Digest, l: Lez, signer: Account, preimage: Bytes): Option<Lez> {
    if && |preimage| == 32 && l.escrow.Some? && l.escrow.value.phase == Locked
       && signer == l.escrow.value.takerId && sha(preimage) == l.escrow.value.hashlock
       && l.balance >= l.escrow.value.amount
    then Some(Lez(Some(l.escrow.value.(phase := Claimed, preimage := Some(preimage))),
                  l.balance - l.escrow.value.amount))
    else None
  }

  /** `execute_refund`: the maker, at or after the timelock, from a funded escrow. */
  function ExecuteRefund(l: Lez, signer: Account, now: nat): Option<Lez> {
    if && l.escrow.Some? && l.escrow.value.phase == Locked && signer == l.escrow.value.makerId
       && now >= l.escrow.value.timelock && l.balance >= l.escrow.value.amount
    then Some(Lez(Some(l.escrow.value.(phase := Refunded)), l.balance - l.escrow.value.amount))
    else None
  }

  /** `EthHTLC.claim` by the recipient. */
  function ExecuteEthClaim(sha: Digest, e: Eth, preimage: Bytes): Option<Eth> {
    if e.phase == Open && sha(preimage) == e.hashlock then Some(e.(phase := EthClaimed)) else None
  }

  /** `EthHTLC.refund` by the sender. */
  function ExecuteEthRefund(e: Eth, now: nat): Option<Eth> {
    if e.phase == Open && now >= e.timelock * 1000 then Some(e.(phase := EthRefunded)) else None
  }

  // ----- steps of the world -----

  datatype Action =
    | Tick(millis: nat)
    | LezLock(maker: Account, taker: Account, amount: nat, timelock: nat)
    | LezCredit(n: nat)
    | LezClaim(signer: Account, preimage: Bytes)
    | LezRefund(signer: Account)
    | EthLock(timelock: nat)
    | EthClaim(preimage: Bytes)
    | EthRefund

  /** A rejected transaction changes nothing. */
  function Next(sha: Digest, hashlock: Bytes, w: World, a: Action): World {
    match a
    case Tick(d) => w.(now := w.now + d)
    case LezLock(m, t, amount, timelock) =>
      var r := ExecuteLock(w.lez, hashlock, m, t, amount, timelock);
      if r.Some? then w.(lez := r.value) else w
    case LezCredit(n) => w.(lez := w.lez.(balance := w.lez.balance + n))
    case LezClaim(s, p) =>
      var r := ExecuteClaim(sha, w.lez, s, p);
      if r.Some? then w.(lez := r.value) else w
    case LezRefund(s) =>
      var r := ExecuteRefund(w.lez, s, w.now);
      if r.Some? then w.(lez := r.value) else w
    case EthLock(timelock) =>
      if w.eth.phase == Empty then w.(eth := Eth(Open, hashlock, timelock)) else w
    case EthClaim(p) =>
      var r := ExecuteEthClaim(sha, w.eth, p);
      if r.Some? then w.(eth := r.value) else w
    case EthRefund =>
      var r := ExecuteEthRefund(w.eth, w.now);
      if r.Some? then w.(eth := r.value) else w
  }

  /** A preimage is on the escrow exactly when it was claimed, and it is a valid one. */
  predicate ValidWorld(sha: Digest, hashlock: Bytes, w: World) {
    w.lez.escrow.Some? ==>
      var e := w.lez.escrow.value;
      && e.hashlock == hashlock
      && (e.phase == Claimed <==> e.preimage.Some?)
      && (e.phase == Claimed ==> |e.preimage.value| == 32 && sha(e.preimage.value) == hashlock)
  }

  /** What can have become of `a` by the time the world is `b`: accounts are never
      deleted, their terms never change, terminal states are final, and an escrow
      is not refunded before its timelock. */
  predicate Evolves(a: World, b: World) {
    && a.now <= b.now
    && (a.lez.escrow.Some? ==>
          && b.lez.escrow.Some?
          && b.lez.escrow.value.makerId == a.lez.escrow.value.makerId
          && b.lez.escrow.value.takerId == a.lez.escrow.value.takerId
          && b.lez.escrow.value.hashlock == a.lez.escrow.value.hashlock
          && b.lez.escrow.value.amount == a.lez.escrow.value.amount
          && b.lez.escrow.value.timelock == a.lez.escrow.value.timelock
          && (a.lez.escrow.value.phase != Locked ==> b.lez.escrow == a.lez.escrow)
          && (b.lez.escrow.value.phase == Locked ==> a.lez.balance <= b.lez.balance)
          && (a.lez.escrow.value.phase == Locked && b.lez.escrow.value.phase == Refunded ==>
                b.now >= a.lez.escrow.value.timelock))
    && (a.eth.phase != Empty ==>
        b.eth.hashlock == a.eth.hashlock && b.eth.timelock == a.eth.timelock && b.eth.phase != Empty)
    && (a.eth.phase in {EthClaimed, EthRefunded} ==> b.eth == a.eth)
    && (a.eth.phase == Open && b.eth.phase == EthRefunded ==> b.now >= a.eth.timelock * 1000)
  }

  lemma StepEvolves(sha: Digest, hashlock: Bytes, w: World, a: Action)
    requires ValidWorld(sha, hashlock, w)
    ensures Evolves(w, Next(sha, hashlock, w, a)) && ValidWorld(sha, hashlock, Next(sha, hashlock, w, a))
  {
  }

  lemma EvolvesTransitive(a: World, b: World, c: World)
    requires Evolves(a, b) && Evolves(b, c)
    ensures Evolves(a, c)
  {
  }

  // ----- histories -----

  ghost predicate StepTo(sha: Digest, hashlock: Bytes, w: World, w': World) {
    exists a :: w' == Next(sha, hashlock, w, a)
  }

  lemma StepToEvolves(sha: Digest, hashlock: Bytes, w: World, w': World)
    requires ValidWorld(sha, hashlock, w) && StepTo(sha, hashlock, w, w')
    ensures Evolves(w, w') && ValidWorld(sha, hashlock, w')
  {
    var a :| w' == Next(sha, hashlock, w, a);
    StepEvolves(sha, hashlock, w, a);
  }

  /** A history of the world: every entry follows from the one before by one action. */
  ghost predicate History(sha: Digest, hashlock: Bytes, h: seq<World>) {
    && |h| > 0 && ValidWorld(sha, hashlock, h[0])
    && forall i :: 0 < i < |h| ==> StepTo(sha, hashlock, h[i - 1], h[i])
  }

  lemma {:induction false} HistoryValid(sha: Digest, hashlock: Bytes, h: seq<World>, i: nat)
    requires History(sha, hashlock, h) && i < |h|
    ensures ValidWorld(sha, hashlock, h[i])
  {
    if i > 0 {
      HistoryValid(sha, hashlock, h, i - 1);
      StepToEvolves(sha, hashlock, h[i - 1], h[i]);
    }
  }

  /** Any later world of a history is an evolution of any earlier one. */
  lemma {:induction false} HistoryEvolves(sha: Digest, hashlock: Bytes, h: seq<World>, i: nat, j: nat)
    requires History(sha, hashlock, h) && i <= j < |h|
    ensures Evolves(h[i], h[j])
    decreases j
  {
    if i < j {
      HistoryEvolves(sha, hashlock, h, i, j - 1);
      HistoryValid(sha, hashlock, h, j - 1);
      StepToEvolves(sha, hashlock, h[j - 1], h[j]);
      EvolvesTransitive(h[i], h[j - 1], h[j]);
    }
  }

  // ----- where the money is -----

  function Replayed(sha: Digest, hashlock: Bytes, w: World, acts: seq<Action>): World {
    if acts == [] then w else Next(sha, hashlock, Replayed(sha, hashlock, w, acts[..|acts| - 1]), acts[|acts| - 1])
  }

  function Credited(acts: seq<Action>): nat {
    if acts == [] then 0 else
      Credited(acts[..|acts| - 1]) + (if acts[|acts| - 1].LezCredit? then acts[|acts| - 1].n else 0)
  }

  /** Over every run from an untouched account, what was credited is on the account,
      less exactly the escrow's amount once it was claimed or refunded. */
  lemma {:induction false} CreditsConserved(sha: Digest, hashlock: Bytes, w: World, acts: seq<Action>)
    requires w.lez == Lez(None, 0)
    ensures var l := Replayed(sha, hashlock, w, acts).lez;
      Credited(acts) == l.balance
        + (if l.escrow.Some? && l.escrow.value.phase != Locked then l.escrow.value.amount else 0)
  {
    if acts != [] { CreditsConserved(sha, hashlock, w, acts[..|acts| - 1]); }
  }

  /** An ETH lock that is still open comes back to its sender from its timelock on. */
  lemma OpenEthComesBack(sha: Digest, hashlock: Bytes, w: World, wait: nat)
    requires w.eth.phase == Open
    ensures var later := Next(sha, hashlock, Next(sha, hashlock, w, Tick(wait)), EthRefund);
      later.eth == (if w.now + wait >= w.eth.timelock * 1000 then w.eth.(phase := EthRefunded) else w.eth)
  {
  }
}
