# Verification model of the ETH/LEZ atomic-swap engine

A Dafny 4.11 model of the parts of the swap engine that must be right over whole
runs: crash recovery of the maker, the taker's side of the protocol against an
arbitrary counterparty, the incremental log cache, provable log counting, the
serialized signed writes of the MCP server, the append-only operations ledger,
the event watcher and the text forms of amounts and ids.

Check everything with `dafny verify dfyconfig.toml`.

## How the model is laid out

| file | models |
|---|---|
| `Htlc.dfy` | the LEZ guest program and the Solidity HTLC for one hashlock, the actions of the world, histories |
| `Journal.dfy` | `StateStore`: memory, the visible file, and every content a power loss may leave |
| `Reads.dfy` | bounded escrow and balance reads, the confirmed refund, the two-step lock up to funding |
| `Reconcile.dfy` | the decision of one reconcile pass, the method that carries it out, and its soundness under interleaving |
| `MakerRuns.dfy` | the maker as a state machine: chains, journal, process, crashes, restarts |
| `Taker.dfy` | `run_taker`, as a method and as one participant among arbitrary others |
| `ScanCache.dfy` | the reorg-safe incremental cache of the MCP server |
| `ReportScan.dfy` | chunked scanning, two-anchor corroboration, `collect_tally` |
| `Tally.dfy` | `SwapTally`: order-insensitive ingestion and the counts |
| `ChainWindow.dfy`, `Calendar.dfy` | `--since`/`--until` to block numbers, civil dates to Unix days |
| `SignedWrites.dfy` | the signed-write lock, detached sections, nonces, confirmation |
| `OpsLedger.dfy` | the JSONL ledger, its replay and its report |
| `Watcher.dfy` | the polling event watcher |
| `Amounts.dfy` | `eth_to_wei`, `wei_to_eth_string`, program ids as hex |

Nodes, clocks, schedulers and failing disks are inputs: what every read returns,
when a crash happens and which step of a write fails is universally quantified,
restricted only by the predicates named below. SHA-256 is an uninterpreted
function. The assumptions about the outside are:

- `Reconcile.Consistent`: an escrow or ETH state that is returned was really there
  while it was being read; errors and absent answers promise nothing, except that
  five error-free absent answers include one truthful one, and a set of answered
  balance reads includes one truthful one; a claim receipt is a successful claim.
- `Taker.MayHappen`: nobody signs for the taker, and nobody presents a preimage of
  its hashlock before the taker reveals it.
- `Taker.Enabled`: an escrow or balance read that returns a value returns the current
  one, and the taker's clock is the chain's.
- `SignedWrites.NextPc`: nonce and ownership reads are current, and no other process
  signs with the key.
- `Watcher.Query`: a successful log query is complete, and the chain it reads does not
  reorganise.
- `ScanCache.Shallow`: reorgs are no deeper than the rewind window below the lower head.
- `ReportScan.Backend`: a backend holds one contiguous block interval and answers
  empty elsewhere; one batch is answered by one backend.
- `Journal.Enabled`: a power loss leaves one of the contents written since the last
  completed directory sync.
- `Reconcile.Consistent` also says that the local clock at the wedge check is not ahead
  of the chain's.
- `ScanCache.ShallowPass` also says that every view that served a pass reaches the head
  reported to it; the exactness results (`ScanCache.PassExactIff`) do not need that.
- `Ops.Appended`: text appended to an unterminated ledger line joins it, and neither the
  joined line nor a part of a line parses.
- `MakerRuns.Enabled`: the LEZ timelock that the maker computes when it matches a swap
  lies ahead of the chain's clock, and a watcher event was really seen on the escrow.

## Where the code does not do what its comments promise

Each of these has a lemma with a concrete run, and a statement of when the promise
does hold.

- `record` documents that `Ok` means the entry survives a crash. Its early return for
  a known hashlock writes nothing, so it can acknowledge an entry that is only in a
  renamed but unsynced file (`Journal.UnsyncedRestartLosesRecord`). What is owed is kept
  by every other step, and by that one exactly if every content a crash can leave already
  holds the hashlock (`Journal.OwedKeptIff`, `Journal.RecordIsDurableIff`).
- The file is meant never to be ahead of memory in stage. A funded swap that is removed
  and recorded again, both without a completed directory sync, is pre-lock after a
  restart while a power loss can still bring back the funded entry
  (`Journal.RerecordedFallsBehind`). Every step keeps all files behind memory exactly
  unless it is such a `record` (`Journal.NeverAheadIff`).
- A confirmation by nonce advance is documented as proof that this transaction
  committed. It is, exactly if no earlier submission is still live when the nonce is
  about to be read (`SignedWrites.TrustedIff`; run in `SignedWrites.OvertakenFromStart`);
  after a timed-out confirmation the lock is
  released while one may be.
- A submission that follows a confirmed one is meant to use a larger nonce. A transfer
  reads its nonce twice, once to watch and once to submit; if an older submission commits
  in between, it is confirmed at once and the next transfer reuses its nonce
  (`SignedWrites.NonceReusedFromStart`). The nonce is never reused exactly if the two
  reads agree, and always for an Initialize (`SignedWrites.NeverReusedIff`).
- `--until` earlier than block 0 with a search from block 0 selects block 0 instead of
  nothing (`ChainWindow.GenesisIsSelected`); that is the only such case
  (`ChainWindow.DeriveWindow`).
- `run_taker` compares the escrow account's balance with the configured amount, while
  the program pays out the escrow's own amount: with an escrow overstated by the maker
  every check passes, the maker takes the ETH and the taker's claim is rejected
  (`Taker.OverstatedEscrowLoses`). From the moment the checks have passed, the taker is
  paid or can claim at every instant before the timelock, whatever the others do, exactly
  if the account holds the escrow's own amount (`Taker.RevealPaysIff`).
- `parse_time_arg` accepts any 64-bit year, but its seconds overflow for far ones. A
  build with overflow checks panics there; one without takes them for times before the
  epoch (`Calendar.LateInstantIsRejected`, `Calendar.FarYearIsLate`). It computes the
  time meant exactly if the seconds fit (`Calendar.CodeTimeIff`).
- A reorg in the middle of one scan pass can make deduplication swallow a moved event
  (`ScanCache.MidPassReorgSwallows`), or leave a removed one and a wrong answer
  (`ScanCache.MidPassOrphanSurvives`), until the next pass. Nothing read is swallowed
  exactly if no event was read twice (`ScanCache.PassKeepsAllReadIff`), and the pass is
  also exact for the chain exactly if each chunk agrees with it on the chunk's own blocks
  (`ScanCache.PassExactIff`).
- The ledger file is meant to replay to the records in memory. A line whose sync fails
  stays in the file only, and a torn line takes the next one with it
  (`Ops.TornAppendLosesNext`). Memory stays the replay of the file exactly if each append
  is a safe one (`Ops.SyncedIff`), which all-or-nothing appends are
  (`Ops.AllOrNothingIsSafe`).
- The documented ledger key is 64 lower-case hex digits. The guard accepts every spelling
  of such a key, in either case and with any number of `0x` prefixes (`Ops.AcceptedIff`),
  and two spellings make two records (`Ops.TwoSpellingsTwoRecords`). An accepted text is
  the documented key exactly if it has no prefix and no upper-case digit
  (`Ops.DocumentedKeyIff`).

One branch of the code is dead: recovery of a claimed escrow without a usable preimage,
since the guest program stores a 32-byte preimage on every claim
(`Reconcile.NeverBadPreimage`).

## Model

| member | source | states |
|---|---|---|
| `Htlc.StepEvolves` | programs/lez-htlc/methods/guest/src/main.rs:62-195 | every action keeps accounts, terms and terminal states; no refund before the timelock; a stored preimage is valid |
| `Htlc.HistoryEvolves` | contracts/src/EthHTLC.sol:90-152 | any later world of any history is an evolution of any earlier one, on both chains |
| `Htlc.CreditsConserved` | programs/lez-htlc/methods/guest/src/main.rs:105-195 | over every run, what was credited is on the account, less exactly the escrow's amount once it was claimed or refunded |
| `Htlc.OpenEthComesBack` | contracts/src/EthHTLC.sol:137-152 | an open ETH lock comes back exactly from its timelock on |
| `Journal.Load` | src/cli/bot.rs:240-261 | a missing file is an empty journal; an unreadable or corrupt one is an error, never an empty journal |
| `Journal.StateStore.constructor` | src/cli/bot.rs:257-261 | memory starts as what the file shows |
| `Journal.StateStore.Persist` | src/cli/bot.rs:267-292 | what a persist that fails before or after the rename leaves visible, and what a power loss may leave |
| `Journal.StateStore.Record` | src/cli/bot.rs:303-322 | new state and result, with the rollback of memory on a failed persist and the early return |
| `Journal.StateStore.MarkFunded` | src/cli/bot.rs:324-337 | every matching entry is upgraded, others untouched, persisted only on a change |
| `Journal.StateStore.Remove` | src/cli/bot.rs:339-346 | exactly the entries of the hashlock go |
| `Journal.StateStore.Quarantine` | src/cli/bot.rs:362-376 | the entry moves to the tombstones once, keeping its swap id |
| `Journal.RecordLaw` | src/cli/bot.rs:303-322 | success means the entry is in memory, and on file and durable unless it was there before; a failure leaves memory as it was |
| `Journal.MarkFundedLaw` | src/cli/bot.rs:324-337 | every entry of the hashlock is funded afterwards, nothing else about it and no other entry changes |
| `Journal.RemoveLaw` | src/cli/bot.rs:339-346 | an entry is left iff its hashlock is another one |
| `Journal.QuarantineLaw` | src/cli/bot.rs:362-376 | the hashlock leaves the journal and is a tombstone, an older one kept as it was, a new one with the swap id of the entry, the reason and the time |
| `Journal.OwedKeptIff` | src/cli/bot.rs:267-376 | every operation, fault, restart and power loss keeps each owed hashlock in memory and in all that a crash can leave, iff it is not an early `record` of a hashlock missing from some of it |
| `Journal.CrashSafe` | src/cli/bot.rs:234-376 | the same over whole runs, restarts on unsynced files included |
| `Journal.FreshRunIsCrashSafe` | src/cli/bot.rs:234-376 | from a fresh deployment, the journal reloaded after any crash holds every hashlock recorded with `Ok` and not since removed or quarantined |
| `Journal.RunUnique` | src/cli/bot.rs:267-376 | hashlocks stay unique in memory and in all that a crash can leave, over every run |
| `Journal.NeverAheadIff` | src/cli/bot.rs:267-376 | every step, restarts and power losses included, keeps all that a crash can leave from being ahead of memory in stage, iff it is not an unsynced pre-lock `record` of a swap some content still has as funded |
| `Journal.RunNeverAhead` | src/cli/bot.rs:267-376 | the same over whole runs |
| `Journal.RerecordedFallsBehind` | src/cli/bot.rs:303-346 | the run in which a content a crash can leave gets ahead of memory |
| `Journal.CoveredIff` | src/cli/bot.rs:267-376 | every step keeps all that a crash can leave covering memory and the file a restart loads, iff it is not an unsynced `record` of a hashlock missing from some of it |
| `Journal.UnsyncedUpgradeIsSafe` | src/cli/bot.rs:324-337 | a restart after an upgrade whose directory sync failed is one of the runs covered |
| `Journal.RecordIsDurableIff` | src/cli/bot.rs:303-322 | `record` means durable for every next call iff all durable contents cover memory |
| `Journal.UnsyncedRestartLosesRecord` | src/cli/bot.rs:303-322 | the run in which a recorded swap is lost |
| `Reads.ReadEscrowBounded` | src/cli/bot.rs:620-665 | the loop computes the five-attempt read |
| `Reads.BoundedReadMeaning` | src/cli/bot.rs:586-665 | an escrow was returned by some attempt; absence is authoritative iff all five answered absent |
| `Reads.BoundedReadIsFirst` | src/cli/bot.rs:620-665 | an escrow is returned iff it is the first that one of the five attempts found |
| `Reads.MaxEscrowBalance` | src/cli/bot.rs:685-709 | the loop computes the five-attempt maximum with its early exit |
| `Reads.MaxBalanceMeaning` | src/cli/bot.rs:667-709 | no value iff all reads failed, never a zero; a value below the amount bounds every answer |
| `Reads.ShortIff` | src/cli/bot.rs:685-709 | the account counts as short iff some read answered and every answer is below the amount |
| `Reads.RefundConfirmed` | src/lez/client.rs:605-673 | at most one refund is submitted, on the first `Locked` read and only then; the loop ends by its deadline |
| `Reads.RefundFromMeaning` | src/lez/client.rs:605-685 | a refund is reported only on an observed `Refunded`, a claim only on an observed `Claimed` with a 32-byte preimage |
| `Reads.RefundIff` | src/lez/client.rs:605-685 | each outcome is reported iff the first deciding turn before the deadline, and before five absences in a row, says so |
| `Reads.LockUntilConfirmed` | src/lez/client.rs:447-526 | when each of the four endings is reached: confirmed iff a poll in time saw a locked escrow with our maker, taker, amount and timelock, after an absent check |
| `Reads.LockAndFund` | src/lez/client.rs:447-557 | the funding transfer is sent iff, after an absent check, a poll in time saw a locked escrow with our maker, taker, amount and timelock; success iff a poll in time showed the full amount |
| `Reconcile.ClaimedRead` | src/cli/bot.rs:1088-1103 | when recovery is chosen one of the two reads is a claimed escrow, so the `expect` cannot fail |
| `Reconcile.DecideLocked` | src/cli/bot.rs:1000-1160 | the reads of the `Locked` branch in program order give the specified verdict |
| `Reconcile.ReconcileEntry` | src/cli/bot.rs:938-1227 | verdict and journal after one entry, for every answer and fault |
| `Reconcile.EntryLeaves` | src/cli/bot.rs:938-1227 | an entry stays iff the verdict is keep or resume, as funded if an escrow was read and unchanged otherwise; other entries stay as they were, and so do the tombstones unless it was quarantined or retired |
| `Reconcile.EntryEntombed` | src/cli/bot.rs:1096-1205 | a quarantined or retired entry becomes a tombstone with its swap id and its reason, unless there is one |
| `Reconcile.PassSettlesAll` | src/cli/bot.rs:938-1227 | a whole pass leaves each entry of the journal, and its tombstone, as the entry's own verdict says, and no other hashlock |
| `Reconcile.ClaimEthIff` | src/cli/bot.rs:740-785 | the ETH side counts as settled iff the id names no swap, or the client was built and the HTLC was read out of `OPEN`, a receipt came back, or the re-check read `CLAIMED` |
| `Reconcile.ClaimedFirst` | src/cli/bot.rs:787-823 | a claimed escrow read first: the entry leaves, with the outcome of the claim, iff the ETH side is settled, and stays otherwise |
| `Reconcile.RefundedFirst` | src/cli/bot.rs:995-998 | a refunded escrow read first always drops the entry |
| `Reconcile.LockedFirst` | src/cli/bot.rs:1000-1160 | a locked escrow read first: kept without any balance read; otherwise, unless short and expired, resumed before expiry and after it dropped iff the confirmed refund saw the refund, or a claim with the ETH side settled |
| `Reconcile.QuarantineIff` | src/cli/bot.rs:503-538 | quarantine iff both confirming reads found it locked, past its timelock, with every answered balance between them short |
| `Reconcile.CandidateOnChain` | src/cli/bot.rs:1031-1120 | over every interleaving, a short and expired escrow is quarantined iff so confirmed, recovered as a claimed one if a read shows the claim, dropped iff the last read shows a refund and none the claim |
| `Reconcile.RefundVerdictIff` | src/cli/bot.rs:1123-1160 | a confirmed refund drops the entry iff it saw the refund, or a claim with the ETH side settled |
| `Reconcile.ResumeIff` | src/cli/bot.rs:828-927 | a resumed swap leaves iff the claim was usable and the ETH side settled, or a refund was seen or confirmed |
| `Reconcile.ReconcileAll` | src/cli/bot.rs:938-1227 | the pass over the whole snapshot; without a LEZ client nothing changes |
| `Reconcile.WedgeQuarantineSound` | src/cli/bot.rs:503-538 | over every interleaving, quarantine implies `Locked` from the first to the last confirming read and a true balance below the amount at some instant after expiry |
| `Reconcile.ClaimBeforeFinalRead` | src/cli/bot.rs:1031-1120 | a claim that lands before the final state read yields recover or retain; retain iff neither read showed it |
| `Reconcile.EthResolvedSound` | src/cli/bot.rs:740-785 | an outcome that lets the entry go really saw the ETH HTLC out of `OPEN` |
| `Reconcile.RefundDropSound` | src/cli/bot.rs:1123-1148 | an entry is dropped for a refund only if the escrow was `Refunded` |
| `Reconcile.EthDropSound` | src/cli/bot.rs:787-823 | an entry is dropped for a settled ETH side only if the escrow was `Claimed` |
| `Reconcile.NeverBadPreimage` | src/cli/bot.rs:787-823 | the unusable-preimage branch is never taken |
| `Reconcile.RetiresIff` | src/cli/bot.rs:568-583 | absence retires an entry iff it is pre-lock and all five reads answered absent |
| `Reconcile.RevealedEntryKept` | src/cli/bot.rs:787-823 | once the preimage is on the escrow a pass keeps the entry or has resolved the ETH side |
| `MakerRuns.StepKeeps` | src/cli/bot.rs:828-1227 | every step of chains, process, crash and reconcile keeps the maker's invariant |
| `MakerRuns.NoSwapForgotten` | src/cli/bot.rs:234-1227 | over every run, a swap whose lock or funding was sent is in memory and in every content a crash can leave, until let go for a reason the chains confirm |
| `MakerRuns.RetiredMeansUnfunded` | src/cli/bot.rs:1163-1227 | a retired pre-lock entry never had its funding transfer sent |
| `MakerRuns.RevealedSwapResolved` | src/cli/bot.rs:740-823 | over every run, a swap with its preimage revealed is let go only once the ETH HTLC was seen out of `OPEN` |
| `MakerRuns.AtMostOneFunding` | src/lez/client.rs:456-525 | over every run, with crashes, restarts and phantom absences, at most one funding transfer is sent per hashlock |
| `MakerRuns.FundsOnceStep` | src/lez/client.rs:484-520 | every step keeps: a paid-for swap that was let go has a settled or expired escrow, and a later attempt locks on a later timelock, so the old escrow never confirms it |
| `MakerRuns.FundingIsOnOurTerms` | src/lez/client.rs:484-520 | over every run, whenever the funding transfer is sent the escrow on chain has the maker, taker, amount and timelock of the attempt; from then on only that taker can claim it, and that maker, alone, can refund it iff it is locked, funded and past the timelock |
| `MakerRuns.JustifiedIsOutdated` | src/cli/bot.rs:938-1227 | every reason to let a paid-for swap go leaves its escrow settled or past its timelock |
| `MakerRuns.ResumeJustified` | src/cli/bot.rs:828-927 | a resumed or watched swap is let go only for a reason the chains confirm |
| `Taker.RunTaker` | src/swap/taker.rs:37-216 | the preimage leaves the process iff every check passed; completed iff it did and the claim succeeded; aborted iff a refund or the timeout came before a lock event |
| `Taker.VerifyBinds` | src/swap/taker.rs:219-261 | passing means: our hashlock, our account, 300 s left, before the ETH timelock |
| `Taker.VerifyBindingIff` | src/swap/taker.rs:219-261 | accepted iff for us, under our hashlock, at least 300 s away and before the ETH timelock; the error names the first that fails |
| `Taker.StepKeeps` | src/swap/taker.rs:37-216 | every step of the taker and every permitted step of the others keeps the invariant |
| `Taker.RevealIsSafe` | src/swap/taker.rs:92-188 | after a reveal, in every run, the escrow is bound to us and for 300 s holds our amount for us alone or has paid us |
| `Taker.UnrevealedEthIsSafe` | src/swap/taker.rs:92-188 | unless revealed the maker has not taken the ETH, on every earlier exit |
| `Taker.ClaimAcceptedIff` | src/swap/taker.rs:137-190 | at every instant after the checks, in every run, the claim is accepted iff the escrow is locked and the account holds the escrow's own amount |
| `Taker.RevealPaysIff` | src/swap/taker.rs:137-190 | on all runs from the passed checks, at every instant before the timelock, the taker is paid or can claim iff the account holds the escrow's own amount when the checks have passed |
| `Taker.ShortAccountLoses` | src/swap/taker.rs:137-190 | from every state past the checks with a short account and an open ETH lock, the taker can lose the ETH with nothing paid and its claim rejected |
| `Taker.OverstatedEscrowLoses` | src/swap/taker.rs:137-190 | the run from the start in which the taker reveals, the maker takes the ETH and the claim is rejected |
| `Taker.FairSwapCompletes` | src/swap/taker.rs:37-216 | with an honest maker the run completes and pays exactly the agreed amount |
| `ScanCache.EthReader.ReconcileRange` | lez-mcp/src/eth.rs:54-66 | cached events of the range are replaced by the fresh ones, deduplicated |
| `ScanCache.EthReader.PruneHeadRegression` | lez-mcp/src/eth.rs:80-88 | events past a regressed head go, the cursor never below the first block |
| `ScanCache.EthReader.ScanChunks` | lez-mcp/src/eth.rs:141-156 | the chunk loop computes the specified cache and stops at the first failure, keeping what was committed |
| `ScanCache.RequestSize` | lez-mcp/src/eth.rs:138-156 | every request asks for 40000 blocks, or fewer up to the head |
| `ScanCache.TwoEvents` | lez-mcp/src/eth.rs:54-66 | two events are one iff they share transaction and log index |
| `ScanCache.EthReader.MatchedIds` | lez-mcp/src/eth.rs:158-165 | distinct ids in order of first appearance |
| `ScanCache.EthReader.RunScan` | lez-mcp/src/eth.rs:113-173 | cache and answer of one pass, for every pattern of failures |
| `ScanCache.FirstChunkExact` | lez-mcp/src/eth.rs:45-66 | the first chunk covers the whole rewound tail: no orphan survives it and deduplication drops nothing |
| `ScanCache.PruneKeepsSolid` | lez-mcp/src/eth.rs:80-88 | pruning keeps the exact prefix for every chain a shallow reorg away |
| `ScanCache.PassKeepsSolid` | lez-mcp/src/eth.rs:113-173 | whatever a pass ran into, the prefix below the next rewind is exact for the chain it ended on |
| `ScanCache.RunKeepsSolid` | lez-mcp/src/eth.rs:113-173 | the same over any sequence of passes, failures, regressions and shallow reorgs |
| `ScanCache.PassIsAddFresh` | lez-mcp/src/eth.rs:113-173 | a pass leaves the cache below its start, deduplicated with all it read |
| `ScanCache.PassKeepsAllReadIff` | lez-mcp/src/eth.rs:54-66 | nothing read is swallowed iff no event was read twice |
| `ScanCache.RunStaysDistinct` | lez-mcp/src/eth.rs:54-66 | over any run no event is cached twice |
| `ScanCache.PassExactIff` | lez-mcp/src/eth.rs:113-173 | exact for the chain with nothing swallowed iff each chunk agrees with the chain on its own blocks, whatever the views did elsewhere |
| `ScanCache.AgreeingPassIsExact` | lez-mcp/src/eth.rs:113-173 | a pass that agrees with the chain on what it read leaves exactly its logs up to the cursor |
| `ScanCache.NoReorgAgrees` | lez-mcp/src/eth.rs:113-173 | without a reorg during the pass every chunk agrees with the chain |
| `ScanCache.CachedAnswerIsFullRescan` | lez-mcp/src/eth.rs:113-173 | after any run, the answer of such a pass equals that of a full rescan |
| `ScanCache.MatchesComplete` | lez-mcp/src/eth.rs:160-166 | the matched ids are exactly those locked under the hashlock, each once |
| `ScanCache.MidPassReorgSwallows` | lez-mcp/src/eth.rs:54-66 | the run in which a moved event is dropped as a duplicate |
| `ScanCache.MidPassOrphanSurvives` | lez-mcp/src/eth.rs:138-165 | the run in which a removed event stays and the answer is wrong |
| `ScanCache.PassAdvances` | lez-mcp/src/eth.rs:138-172 | an error-free pass reaches the head or gains at least 16*40000-64 blocks |
| `ScanCache.CallsReachHead` | lez-mcp/src/eth.rs:138-172 | under a fixed head enough calls at that rate reach it |
| `ScanCache.ResolvesWithin` | lez-mcp/src/eth.rs:138-172 | a new cache resolves within ceil((head-from+1)/639936) error-free calls |
| `ReportScan.BlockChunks` | src/eth/report.rs:361-374 | the chunks tile the range, each as wide as asked except the last |
| `ReportScan.TilesCoverOnce` | src/eth/report.rs:361-374 | tiling means every block lies in exactly one span |
| `ReportScan.CorroboratesIff` | src/eth/report.rs:476-480 | an answer is trusted iff every anchor was answered with exactly its logs |
| `ReportScan.Fetch` | src/eth/report.rs:1074-1098 | an answer is used only if its own batch satisfied every canary |
| `ReportScan.ScanRange` | src/eth/report.rs:1044-1146 | terminates for every pattern of replies; on success the accepted spans tile the range and exactly their logs were ingested; it fails only on six replies in a row without proof, or on a failure for which no retry and no smaller chunk is left |
| `ReportScan.Recover` | src/eth/report.rs:1100-1122 | a failure is retried iff a rate-limit retry or a smaller chunk is left |
| `ReportScan.LogsComplete` | src/eth/report.rs:1044-1146 | if every serving backend holds its span, what was ingested is the whole range |
| `ReportScan.CanaryProvesBlock` | src/eth/report.rs:476-480 | a satisfied canary proves its backend holds the block |
| `ReportScan.LogsSound` | src/eth/report.rs:1044-1146 | nothing is ingested that is not on the chain |
| `ReportScan.CorroboratedScanIsTrue` | src/eth/report.rs:1151-1203 | between two satisfied anchors the ingested logs are exactly the chain's, across retries, halving and backoff |
| `ReportScan.LeastLogger` | src/eth/report.rs:927-941 | the anchor address logged least in the block |
| `ReportScan.ProbeBlock` | src/eth/report.rs:881-945 | an anchor found carries the true log count of its block for the address logged least, from the first useful answer; a miss took all attempts without one and knows whether it was ever answered |
| `ReportScan.AnchorIn` | src/eth/report.rs:881-945 | the same over all candidate blocks, none skipped |
| `ReportScan.CandidatesAre` | src/eth/report.rs:823-876 | the candidates are the first and the last sixteen blocks, nearest the end first |
| `ReportScan.ProbeCanaries` | src/eth/report.rs:823-876 | both anchors, or the one found, lie within the sixteen probed blocks of their ends; otherwise which end went unanswered |
| `ReportScan.WindowLogsAre` | src/eth/report.rs:999-1036 | the window is the venue's locks, claims and refunds of the lock blocks and its claims and refunds after them |
| `ReportScan.CollectTally` | src/eth/report.rs:963-1037 | every non-empty scan that succeeds, corroborated or not, read responses that tile both spans and tallied exactly their logs: none off the chain, all of them if each serving backend held its span; corroborated iff both ends are anchored, and then faithful between the anchors; with one anchor, every backend that served holds its block; without both only with the opt-in and every unanchored end answered, refused otherwise |
| `ReportScan.AnchoredTallyIsTrue` | src/eth/report.rs:963-1037 | with no log outside the anchors the tally is that of a perfect endpoint |
| `Tally.OrderAndDuplicatesIrrelevant` | src/eth/report.rs:231-258 | with one row per id, order and repetition of logs do not matter |
| `Tally.FirstRowWins` | src/eth/report.rs:239-244 | the first lock row of a swap id is the one that counts |
| `Tally.Count` | src/eth/report.rs:269-302 | attempted, completed, refunded and open are the sizes of the locks, the claimed locks, the refunded unclaimed locks and the rest, globally and per maker, with the distinct takers |
| `Tally.FiguresFromLogs` | src/eth/report.rs:231-302 | from the logs: a swap with a lock and a claim is completed, with a lock and a refund but no claim refunded, with a lock only open |
| `Tally.MakerRowsSumUp` | src/eth/report.rs:269-302 | attempts split into completed, refunded, open, and per-maker rows sum to every bucket |
| `Tally.StrayTerminalsIgnored` | src/eth/report.rs:246-302 | terminals without an in-window lock change no count |
| `Tally.SwapTally.IngestLog` | src/eth/report.rs:1208-1235 | one log into the tally, first lock row wins |
| `ChainWindow.FirstBlockAtOrAfter` | src/eth/report.rs:1354-1380 | the smallest block at or after the target, or none, in logarithmically many lookups |
| `ChainWindow.LastBlockAtOrBefore` | src/eth/report.rs:1384-1410 | the largest block at or before the target, or none, likewise |
| `ChainWindow.BitsIsLogarithmic` | src/eth/report.rs:1354-1410 | the lookup bound is the binary logarithm |
| `ChainWindow.DeriveWindow` | src/cli/report.rs:378-423 | the window selects exactly the blocks asked for iff it need not end before block 0 |
| `ChainWindow.GenesisIsSelected` | src/cli/report.rs:378-423 | every request before block 0, derived, selects block 0 instead of nothing |
| `Calendar.NextDayIsNext` | src/eth/report.rs:1315-1346 | each valid date's successor is the next integer, in every proleptic-Gregorian year |
| `Calendar.EpochIsZero` | src/eth/report.rs:1338-1346 | 1970-01-01 is day 0 |
| `Calendar.DaysMonotone` | src/eth/report.rs:1324-1346 | earlier date iff smaller number, on accepted dates |
| `Calendar.UnixTimeMonotone` | src/eth/report.rs:1273-1312 | earlier (date, time) iff smaller timestamp; accepted iff not before the epoch |
| `Calendar.NextSecondIsNext` | src/eth/report.rs:1273-1312 | the next second of every accepted time is the next integer, from 0 at the epoch |
| `Calendar.CodeTimeIff` | src/eth/report.rs:1308-1346 | with wrapping 64-bit arithmetic the code computes the time meant iff its seconds fit |
| `Calendar.CodeTimeMonotone` | src/eth/report.rs:1308-1346 | within that range the code's result is strictly monotone |
| `Calendar.LateInstantIsRejected` | src/eth/report.rs:1308-1312 | instants past that range, up to 2^64 seconds, are rejected as before the epoch |
| `Calendar.FarYearIsLate` | src/eth/report.rs:1308-1312 | the year 300000000000 is such an instant |
| `SignedWrites.ExclusiveStep` | lez-mcp/src/server.rs:604-630 | the lock is held by exactly the request inside a section, whatever is dropped when |
| `SignedWrites.StepKeeps` | lez-mcp/src/server.rs:512-600 | every step of requests, sections and sequencer keeps the invariant |
| `SignedWrites.SignedWritesAreSerial` | lez-mcp/src/server.rs:1285-1378 | in every run: one section at a time, one committed transaction per nonce, each submission strictly above every confirmed Initialize and every confirmed transaction that committed |
| `SignedWrites.SubmissionsGrow` | lez-mcp/src/server.rs:1339-1378 | strictly above every confirmed transaction, in every run whose transfers read the same nonce twice |
| `SignedWrites.QuietRunIsTrueAndStrict` | lez-mcp/src/server.rs:404-443 | in every run whose nonces were read with nothing live, all confirmations are true and nonces grow strictly |
| `SignedWrites.NeverReusedIff` | lez-mcp/src/server.rs:1339-1357 | a submission's nonce is never used again after its confirmation iff it is the nonce it is watched by |
| `SignedWrites.ConfirmedNonceReused` | lez-mcp/src/server.rs:1339-1357 | the run in which the next transfer reuses a confirmed nonce |
| `SignedWrites.CleanRun` | lez-mcp/src/server.rs:404-443 | a section begun with nothing live reports only what committed, over every continuation |
| `SignedWrites.QuietSectionIsTrue` | lez-mcp/src/server.rs:1288-1378 | the same from the start of a section, for its Initialize and its Transfer |
| `SignedWrites.TransferOvertaken` | lez-mcp/src/server.rs:1339-1377 | the run in which an older submission confirms a transfer |
| `SignedWrites.InitializeOvertaken` | lez-mcp/src/server.rs:512-600 | the same for an Initialize |
| `SignedWrites.OvertakenFromStart` | lez-mcp/src/server.rs:404-443 | such a run from the start of a process, for either kind |
| `SignedWrites.NonceReusedFromStart` | lez-mcp/src/server.rs:1339-1357 | the run from the start in which a confirmed nonce is used again |
| `SignedWrites.TrustedIff` | lez-mcp/src/server.rs:404-443 | confirmation by nonce advance is sound on all continuations iff no earlier submission is live |
| `SignedWrites.ConfirmByHash` | lez-mcp/src/server.rs:361-394 | found, not found by the deadline, or given up after three consecutive errors, each iff |
| `SignedWrites.ConfirmByNonce` | lez-mcp/src/server.rs:412-443 | confirmed iff some poll up to the deadline read a larger nonce |
| `SignedWrites.ConfirmSubmittedTx` | lez-mcp/src/server.rs:361-403 | when each of the four outcomes is returned |
| `SignedWrites.UndisturbedTransferCompletes` | lez-mcp/src/server.rs:1285-1378 | on a default account an undisturbed transfer initializes, transfers, reports its own transaction and frees the lock |
| `SignedWrites.UndisturbedInitializeCompletes` | lez-mcp/src/server.rs:512-600 | so does an undisturbed initialization, after its gate |
| `SignedWrites.OwnedSectionCompletes` | lez-mcp/src/server.rs:512-600 | a section that finds the account owned submits no Initialize: a transfer goes on and completes, an initialization ends |
| `SignedWrites.DroppedRequest` | lez-mcp/src/server.rs:604-630 | once a section is detached, every continuation is the same with and without its request being dropped; before, the drop frees its place or the lock |
| `SignedWrites.LockIsNeverStuck` | lez-mcp/src/server.rs:604-630 | wherever a section is, it can fail, and the lock is then free |
| `Ops.AcceptedIff` | src/ops.rs:168-171 | the guard accepts exactly the spellings of documented keys |
| `Ops.DocumentedKeyIff` | src/ops.rs:168-171 | an accepted text is the documented key iff it has no prefix and no upper-case digit |
| `Ops.SameKeyIff` | src/ops.rs:168-171 | of two spellings of the same bytes, both are documented iff they are one text and that key |
| `Ops.TwoSpellingsTwoRecords` | src/ops.rs:394-418 | one swap under two spellings makes two records |
| `Ops.SyncedIff` | src/ops.rs:310-347 | memory stays the replay of the file iff the append is safe, for whole, unsynced, torn and joined lines |
| `Ops.AllOrNothingIsSafe` | src/ops.rs:310-320 | on a terminated file all-or-nothing appends are safe |
| `Ops.TornAppendLosesNext` | src/ops.rs:310-320 | the run in which a torn append takes the next, fully synced one with it |
| `Ops.RunSynced` | src/ops.rs:275-431 | over every run of safe appends and reloads memory is the replay of the file |
| `Ops.RunExtends` | src/ops.rs:185-217 | final records never change, no accepted swap is forgotten, identities are fixed |
| `Ops.RedeliveryIsNoOp` | src/ops.rs:173-217 | a file to which events of the recorder are delivered again, in any order and number, replays to the same records |
| `Ops.RecordsWereAccepted` | src/ops.rs:173-217 | no terminal event creates a record |
| `Ops.RecordIff` | src/ops.rs:185-217 | over every replay there is a record iff some line accepts its hashlock |
| `Ops.IdentityIsFirst` | src/ops.rs:185-217 | over every replay a record has the swap id, release and time of the first acceptance of its hashlock |
| `Ops.SettledByFirst` | src/ops.rs:185-217 | and the state and final time of the first terminal state after it |
| `Ops.OpenIff` | src/ops.rs:185-217 | and it is open iff there is none |
| `Ops.FinishedStays` | src/ops.rs:322-346 | an ending written on an open record is the record's state over every safe run and reload that follows |
| `Ops.Report` | src/ops.rs:349-377 | accepted = completed + refunded + failed + in flight, rows by code sum to failed, each figure counts its records |
| `Ops.OpsLedger.constructor` | src/ops.rs:275-308 | loading replays the lines that parse |
| `Ops.OpsLedger.RecordAccepted` | src/ops.rs:394-418 | file and memory after an acceptance, for every way the append ends: a new open record iff both ids pass, the hashlock is new and the line was written |
| `Ops.OpsLedger.RecordTerminal` | src/ops.rs:322-346 | file and memory after a terminal state: exactly this state and time on the record iff it is open and the line was written |
| `Watcher.Forward` | src/eth/watcher.rs:93-113 | events go out in order until the receiver hangs up |
| `Watcher.Turn` | src/eth/watcher.rs:70-182 | the cursor moves only after three successful queries, to just past the lagged head, and never back |
| `Watcher.WatchedTurn` | src/eth/watcher.rs:70-182 | every turn keeps coverage, the horizon and exactness |
| `Watcher.Watch` | src/eth/watcher.rs:45-183 | over any number of polls: everything below the cursor forwarded at least once, nothing past the lagged head, exactly once if nothing failed |
| `Watcher.HorizonLags` | src/eth/watcher.rs:70-92 | the horizon lags one block behind the highest head reported |
| `Watcher.NothingPastTheHead` | src/eth/watcher.rs:45-183 | every event forwarded lies below a head that was reported |
| `Amounts.AmountRoundTrip` | src/config.rs:74-115 | reading back a printed amount is exact for every u128, without overflow |
| `Amounts.PrintedShortest` | src/config.rs:106-115 | an amount prints without leading zeros, with a point only before a fraction that does not end in zero |
| `Amounts.FractionRoundsDown` | src/config.rs:88-103 | a fraction of any length is scaled to wei and rounded down |
| `Amounts.ReadsRoundedDown` | src/config.rs:74-103 | digits, point, digits read as whole ETH plus the fraction kept |
| `Amounts.AcceptedAmount` | src/config.rs:74-103 | an accepted text is digits around at most one point, with a plus sign allowed before either part, up to the digits cut off |
| `Amounts.ProgramIdToHex` | src/cli/bot.rs:147-153 | the loop yields the hex of the little-endian words |
| `Amounts.LittleEndian` | src/cli/bot.rs:147-153 | the bytes of each word come least significant first |
| `Amounts.HighDigitFirst` | src/cli/bot.rs:147-153 | each byte is two digits, the high one first |
| `Amounts.ParseProgramId` | src/config.rs:132-146 | the loop yields the id of the decoded bytes, or the error |
| `Amounts.ProgramIdRoundTrip` | src/config.rs:132-146 | every eight-word id survives its text form, with or without prefix |
| `Amounts.AcceptedIdTexts` | src/config.rs:132-146 | accepted iff 64 hex digits after at most one prefix, and the id prints as that text in lower case |

## Left out

- Block numbers near 2^64 in the scan cache and the watcher, where `end + 1` would overflow: numbers are unbounded there; `block_chunks` keeps its saturating addition.
- Decoding of raw logs, accounts and JSON; a log that fails to decode ends the source's scan with an error.
- Text handling of `parse_time_arg` before the fields are known, and command-line parsing; would only add easy members.
- RPC transports, alloy and sequencer clients, signing, tokio: their answers are inputs.
- Classification of RPC errors by their text (`classify_rpc_failure`, `mentions_number`): the class is an input.
- `block_timestamp_paced`, handshake retries and backoff timing: a lookup succeeds or fails.
- Preview tokens, the fingerprint gate and the faucet's proof of work in the MCP server; a gate refusal is the `Fail` step.
- The empty nonce list that `unwrap_or_default` reads as 0, and `confirm_via_seed_rotation`.
- Candidate selection, policy and loop supervision of the maker (`src/swap/maker.rs`, `src/cli/maker.rs`), offer publishing, status file and fund topping. The machine serves a swap only while its hashlock is not journaled, as `classify_candidate` demands, and takes the terms of each attempt as given.
- `balance_with_retry_core`, `build_lock_instruction`, PDA derivation, base58 ids.
- The order of per-maker rows and of `records_snapshot`, and all message wording.
- Non-ASCII amounts, whose fraction the source slices by bytes; negative and malformed ones are errors in the model as in the source.
- `validate_timelocks`: a short chain of comparisons.
- EthHTLC: several swaps of one hashlock are not distinguished, and `lock` arguments the contract rejects are not modelled; the taker's own lock is assumed accepted when it reports success.
- Calendar.UnixTimeMonotone: the fields are given as parsed and computed without bounds; `Calendar.CodeTimeIff` gives the 64-bit arithmetic.
- Reconcile.ReconcileAll: the tasks it resumes edit the journal while it goes on; only `MakerRuns` interleaves them, entry by entry.
- ScanCache.PassExactIff: exactness by accident, where a swallowed event is one that the chain does not have, is not characterised; it is exactness together with nothing swallowed that is.
- ReportScan.CollectTally: blocks of the window outside the two anchors (at most fifteen at each end) are proved sound but not complete, because an anchor proves nothing beyond itself.
