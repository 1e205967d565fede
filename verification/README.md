# Verified models of Vhalla's recovery, delivery, admission, replay and framing logic

Vhalla keeps encrypted rooms on devices and relays. The parts of it where a mistake loses or leaks data are
small protocols: a multi-file commit that must survive power loss, a sender that must not forget that a copy may
already be out, an append-only log, a browser that replays what it saved, and codecs that other implementations
must agree with byte for byte. The repository checks some of these in finite instances (two files, three items,
two attempts). This project states them with every such number a parameter and proves what finite checking does
not reach: facts about whole runs, termination, completeness, refinement, exact accepted languages.

| file | what it models |
|---|---|
| `HostRecovery.dfy`, `HostHistory.dfy` | the sealed host commit: backups, marker with a visible and a durable copy, files, configuration, completion record, recovery |
| `NativeDelivery.dfy`, `DeliveryHistory.dfy` | retrying one delivery job: intents, attempts, outages, uncertainty, crashes, one resume |
| `Ledger.dfy` | ledger admission by scanning, and the shipping ledger that keeps an event map and a sequence map instead |
| `PrivateEgress.dfy` | the order in which old items, one control and new items leave a sender |
| `CertifiedHistory.dfy`, `Tabs.dfy`, `CertifiedReplay.dfy`, `Synchronisation.dfy`, `PeerRotation.dfy` | the browser's certified history: compare-and-append storage shared by tabs, bounded replay, synchronisation, peer rotation |
| `ByteCodec.dfy`, `WitnessCodec.dfy`, `WitnessManifest.dfy`, `WitnessVectors.dfy`, `ArchiveFixture.dfy` | the witness-v1 encodings and the archive fixture frame |
| `ConfigLexer.dfy`, `ConfigGrammar.dfy`, `ConfigDeclarations.dfy`, `TraceReader.dfy` | reading model configurations and counterexamples |
| `Broker.dfy` | the disclosure broker's grant, quota and clock, with callers interleaved |
| `Wrappers.dfy`, `Counting.dfy` | optional values; two counting lemmas |

The transition predicates of the finite models become an action datatype with `Enabled` and `Apply`; a run is a
sequence of actions, and the main results speak about every legal run. Code that changes things in place (the
ledger, the session, the broker, the cursor, the lexing and writing loops) stays methods and classes, each proved
against a specification function or a predicate that says outright what it did, and the theorems are about those.

Five results correct or sharpen what the source says of itself:

* Peer rotation does not reach every selected peer. `sync` moves its position before it spends its budget, so the
  peer at which the budget runs out is passed over. With every peer silent, all of `n` single-endpoint peers are
  asked within `n` attempts exactly when `n` is at most the budget or the budget plus one does not divide `n`
  (`EveryPeerIsAskedExactlyWhen`, and `SyncOncePerPeer` for consecutive calls of `sync`); otherwise one peer is
  never asked (`SkippedForever`), and with the shipped budget of eight that happens at nine peers
  (`NinthPeerIsNeverAsked`).
* `recovery.rs` invokes the predicate `validate_restore`, not a preservation lemma, at line 1697. The step is proved
  here (`ValidatedRestoreIsOld`).
* The stale-basis branches of `recover` and `sync` are never taken, on any storage: an action holds the session while
  it runs, so nothing moves the client between preparing a candidate and committing it (`ReplayRecord`,
  `TakeBundle`, `Sync`). On intact storage recovery never fails at all (`Recover`).
* A world's encoding leaves out the length of its cells' memories. It determines the world exactly when those lengths
  are known from elsewhere (`WorldDeterminedExactlyWhen`), as they are for four-byte memories.
* The intent limit of the delivery model is implied by its attempt and outage limits (`IntentLimitNeverBinds`).

## Model

| member | source | states |
|---|---|---|
| HostRecovery.StepKeepsInv | verify/host-recovery/recovery.rs:718-755 | every step, with or without integrity faults, keeps an inductive invariant strong enough for all results below, for any file set and any crash budget |
| HostRecovery.ValidatedRestoreIsOld | verify/host-recovery/recovery.rs:590-605 | a restore that passes validation left exactly the old version, with every backup and the marker still there, and the step keeps the invariant |
| HostRecovery.RunKeepsInv | verify/host-recovery/recovery.rs:226-239 | every legal run from the initial state satisfies the invariant |
| HostRecovery.CheckedInvariants | verify/host-recovery/recovery.rs:794-819 | the five checked invariants hold in every run: full backups while restoring, restart evidence, no bad read, whole snapshot when done, evidence kept after a refusal |
| HostRecovery.DamageIsRecorded | verify/host-recovery/recovery.rs:653-694 | the damaged flag is set exactly when an integrity fault occurred in the run |
| HostRecovery.RefusalExactlyOnDamage | verify/host-recovery/recovery.rs:632-648 | refusal is enabled if and only if a fault occurred and the run is recovering, so honest runs are never refused, whatever the interruptions |
| HostRecovery.StepSpendsFuel | verify/host-recovery/recovery.rs:718-755 | every step but a read strictly decreases one natural-number measure of crashes left, faults left, phase and work left |
| HostRecovery.ReadStutters | verify/host-recovery/recovery.rs:698-714 | an admitted read changes no field |
| HostRecovery.RunsTerminate | verify/host-recovery/recovery.rs:464-500 | reads aside, a run is shorter than a bound in the number of files and the crash budget |
| HostRecovery.CompletionIsPermanent | verify/host-recovery/recovery.rs:339-353 | the completion record is present exactly when WriteComplete has occurred: recovery never takes it back |
| HostRecovery.FinishedRunIsAllOrNothing | verify/host-recovery/recovery.rs:443-458 | a finished run is honest, has no marker and no backup, and holds all new content if WriteComplete occurred and all old content otherwise |
| HostRecovery.ReadsNeverGoBack | verify/host-recovery/recovery.rs:698-714 | every admitted read shows one whole version, the new one exactly after WriteComplete, and never an older one than an earlier read |
| HostRecovery.QuietOnlyAtTheEnd | verify/host-recovery/recovery.rs:718-755 | nothing but reads and interruptions is possible exactly at the end of a run, and an honest quiet run is done |
| HostRecovery.HonestRunCanFinish | verify/host-recovery/recovery.rs:524-625 | from every point of an honest run the protocol's own steps reach done |
| HostRecovery.DamageFreezesEvidence | verify/host-recovery/recovery.rs:653-694 | after a fault nothing is restored, written, cleaned or finished in any continuation; a tampered backup is never used |
| HostRecovery.InterruptionDecides | verify/host-recovery/recovery.rs:464-500 | once a run has been interrupted, whether the new version survives is settled by whether the completion record was written |
| HostHistory.StateIsHistory | verify/host-recovery/recovery.rs:243-714 | phase, both markers, the bytes of every target, every backup, every outstanding restore, every tampered backup and the interruptions are what the history of the run, read without any state, says |
| HostHistory.PowerLossBringsBack | verify/host-recovery/recovery.rs:485-500 | a power loss brings back exactly the marker that had reached the disk, a process interruption leaves the visible one |
| HostHistory.VisibleMarkerIsDurable | verify/host-recovery/recovery.rs:357-420 | the visible marker never promises more than a power loss would bring back |
| HostHistory.HistoryDecidesWhatMayFollow | verify/host-recovery/recovery.rs:718-755 | which actions may follow is settled by history: recovery restores exactly if a marker can be seen and the completion record was never written, and otherwise keeps; a fault leaves only the refusal; interruptions strike anywhere before the end |
| NativeDelivery.StepKeepsInv | verify/native-delivery/delivery.rs:510-534 | every step of the safe machine keeps the inductive invariant, for any attempt, outage and crash budgets, write failures on or off |
| NativeDelivery.OutcomeKeepsCustody | verify/native-delivery/delivery.rs:370-433 | classifying an outcome keeps custody: no unresolved serial or relay copy without the flag or a checked receipt |
| NativeDelivery.RunKeepsInv | verify/native-delivery/delivery.rs:579-627 | the checked invariants, generalised, hold after every legal run |
| NativeDelivery.StepSpendsFuel | verify/native-delivery/delivery.rs:510-534 | every step, crashes and reopenings included, strictly decreases one measure |
| NativeDelivery.RunsTerminate | verify/native-delivery/delivery.rs:487-505 | every run is at most linear in attempts, outages and crashes |
| NativeDelivery.IntentLimitNeverBinds | verify/native-delivery/delivery.rs:303-318 | an idle, due, active job below its attempt limit can always be selected: the limit on intents never blocks it |
| NativeDelivery.QuietExactlyWhenSettled | verify/native-delivery/delivery.rs:438-470 | only crashes are possible exactly when the job is idle and due and either retained or stopped with its resume used; a retained job has a valid receipt and a relay copy |
| NativeDelivery.UnresolvedIsUnaccounted | verify/native-delivery/delivery.rs:325-337 | the unresolved set is exactly the serials of the run's history that no outcome has accounted for |
| NativeDelivery.HistoryAgrees | verify/native-delivery/delivery.rs:347-366 | the relay flag, intent count and send count are exactly what the history of the run says |
| NativeDelivery.UncertaintySurvivesHistory | verify/native-delivery/delivery.rs:609-612 | a pending job, or a stopped one without the flag, never left a copy and has nothing unaccounted; the flag is set exactly when something is |
| NativeDelivery.IntentsAreConserved | verify/native-delivery/delivery.rs:614-622 | attempts, spent and classified add up to the intents committed, at most twice the attempts plus the outages; each serial is sent at most once, as the original, after its commit |
| NativeDelivery.RetentionIsFinal | verify/native-delivery/delivery.rs:624-627 | once retained, state, receipt, sends and intents never change in any continuation |
| NativeDelivery.OnlyTheGoodReceiptChecks | verify/native-delivery/delivery.rs:182-203 | of the four receipts that transport can bring, exactly the good one is valid |
| DeliveryHistory.StateIsHistory | verify/native-delivery/delivery.rs:282-505 | phase, job state, attempts, allowances, due date, receipt, crashes and the set of sends are what history says; in particular each outcome leads to its one job state, and only committing an intent or an outcome, exhaustion and the resume change it |
| DeliveryHistory.HistoryDecidesWhatMayFollow | verify/native-delivery/delivery.rs:510-534 | which actions may follow is settled by history, in which the limit on intents plays no part |
| Ledgers.LastSequenceMeaning | verify/ledger.rs:62-72 | the scan from the back returns the sequence of the actor's latest event, or nothing when there is none |
| Ledgers.FreshSequenceKeepsOrder | verify/ledger.rs:337-344 | in a monotonic log the sequence check passes exactly when appending keeps the log monotonic |
| Ledgers.AcceptedExactlyWhenWellFormed | verify/ledger.rs:148-175 | an event is accepted if and only if the log with it appended satisfies the invariant |
| Ledgers.FirstWrongIsNamed | verify/ledger.rs:328-350 | a refused event is refused with the first of its wrongs, each said of the whole log, in the order of the checks; an accepted one has none |
| Ledgers.WellFormedExactlyReachable | verify/ledger.rs:148-175 | the invariant is exact: it holds of precisely the logs that offering events to a new ledger can build |
| Ledgers.OffersKeepWellFormed | verify/ledger.rs:318-353 | offering any events keeps the invariant and only extends the log |
| Ledgers.ReplayRebuilds | verify/ledger.rs:178-190 | re-appending a retained log to a new ledger with the same context and at least the capacity accepts every event and rebuilds it |
| Ledgers.RetainedEventIsDuplicate | verify/ledger.rs:334-336 | offering a retained event again is refused as a duplicate, before any other check can fail, with no change |
| Ledgers.SharedEventSharesHistory | verify/ledger.rs:157-163 | two chained logs sharing one id have it at the same place with the same events before it |
| Ledgers.RetainedTipMeansPrefix | verify/ledger.rs:148-175 | if one log retains the other's head, the other is a prefix of it |
| Ledgers.EqualTipsMeanEqualLogs | verify/ledger.rs:154-155 | equal heads mean equal logs |
| Ledgers.ForkIsPermanent | verify/ledger.rs:157-163 | two logs have a common beginning and share no event after it |
| Ledgers.Ledger.HasId | verify/ledger.rs:194-211 | the forward scan answers exactly whether the id is retained |
| Ledgers.Ledger.LastSeq | verify/ledger.rs:215-250 | the backward scan computes the actor's latest sequence |
| Ledgers.Ledger.Commit | verify/ledger.rs:255-314 | an accepted event extends the log and becomes the head |
| Ledgers.Ledger.Append | verify/ledger.rs:318-353 | the first failing check in order is reported and nothing changes; otherwise the event is appended |
| Ledgers.CachesFollowAppend | crates/vhalla-ledger/src/lib.rs:200-203 | updating the event map, the sequence map and the head at commit keeps them equal to what scanning the log would answer |
| Ledgers.CachedLedger.constructor | crates/vhalla-ledger/src/lib.rs:152-162 | a new ledger is empty and its capacity capped |
| Ledgers.CachedLedger.Commit | crates/vhalla-ledger/src/lib.rs:200-203 | without a stored log, the maps keep representing the log extended by the event |
| Ledgers.CachedLedger.Append | crates/vhalla-ledger/src/lib.rs:165-204 | the answers from the maps give the verdict of the scanning checks, the address check in its place, and the same next log |
| Ledgers.CachingRefinesScanning | verify/ledger.rs:5-11 | over every sequence of correctly addressed events the specified verdicts and log of the caching ledger are those of the scanning one |
| Ledgers.AddressIsCheckedThird | crates/vhalla-ledger/src/lib.rs:166-199 | the shipping ledger names a wrong address behind a wrong size or context and before everything else, and otherwise what the scanning ledger names |
| Ledgers.OfferToScanning | verify/ledger.rs:318-353 | offering a sequence to the scanning ledger gives the specified verdicts and log |
| Ledgers.OfferToCaching | crates/vhalla-ledger/src/lib.rs:165-204 | offering a sequence to the caching ledger gives the specified verdicts and represents the specified log |
| Ledgers.OfferToBoth | verify/ledger.rs:5-11 | a scanning and a caching ledger in agreement, offered the same correctly addressed events, give the same verdicts and end with the same log and head |
| Ledgers.AddressedLogsAgree | crates/vhalla-ledger/src/lib.rs:172-183 | under a collision-free address two shipping ledgers never disagree about an id, so the fork results apply to them |
| PrivateEgress.StepKeepsInv | verify/private-egress/egress.rs:130-135 | each step keeps the invariant and its exact effect on progress: which item, or the control, comes next |
| PrivateEgress.RunFollowsCanonical | verify/private-egress/egress.rs:72-127 | after any run, what was sent is determined by how far it got, and the number of steps by what was captured and sent |
| PrivateEgress.OutputIsCanonical | verify/private-egress/egress.rs:104-127 | the sends are always a prefix of old items, control, new items; the control was admitted with exactly the old items retained |
| PrivateEgress.MaximalRunsAreComplete | verify/private-egress/egress.rs:130-135 | no run exceeds two steps per item; a run is maximal exactly when it has that length and exactly when it sent everything |
| PrivateEgress.RunsAreUnique | verify/private-egress/egress.rs:130-135 | the protocol is deterministic: one run of each length |
| CertifiedHistory.PublishKeepsCertified | crates/vhalla-browser-storage/src/browser/history.rs:376-403 | compare-and-append of a certified record leaves a certified chain with its head on it |
| CertifiedHistory.ChainPageFramed | crates/vhalla-browser-storage/src/history.rs:288-308 | a page cut from a certified chain passes every framing check that page reading makes |
| CertifiedHistory.FramedPageIsConsecutive | crates/vhalla-browser-storage/src/history.rs:154-179 | the records of a framed page stand at consecutive heights, in scope, within bounds, each behind the one before, up to the head |
| Tabs.StepKeepsInv | browser/src/network.rs:535-567 | each step of any tab, with losses and unseen publications, keeps the chain certified and every tab on it, and only extends it |
| Tabs.ReplayStaysOnChain | browser/src/network.rs:289-311 | replaying the next record of a certified chain never fails and advances the tab by exactly one height |
| Tabs.HistoryOnlyGrows | browser/src/network.rs:552-560 | durable history is append-only over every interleaving |
| Tabs.TabsShareOneChain | browser/src/network.rs:561-566 | durable history is one certified chain, and the client of every open tab stands exactly at the end of a certified beginning of it |
| Tabs.StaleTabNeverForks | crates/vhalla-browser-storage/src/history.rs:245-258 | a tab behind the chain cannot publish: history is unchanged and the tab fails |
| Tabs.CurrentTabPublishes | browser/src/network.rs:552-566 | a tab at the end of the chain always publishes its candidate and then commits it |
| Tabs.TargetIsWhatWasFound | browser/src/network.rs:348-358 | until a tab publishes, its target is the head of the history it found when opened, and beyond it afterwards |
| Tabs.ReadyTabHasCaughtUp | browser/src/network.rs:316 | a tab that may publish has first replayed all it found when it was opened |
| Tabs.TabsLife | browser/src/network.rs:535-567 | exactly what may happen to a tab that is closed, failed, replaying, ready or holding a staged candidate, after any run |
| Tabs.LossesKeepHistory | crates/vhalla-browser-storage/src/browser/history.rs:373-375 | losing a tab leaves history alone; an unseen publication at the end of the chain is kept although its tab fails |
| Tabs.ReopenedTabCanCatchUp | browser/src/network.rs:761-767 | a closed tab can always be opened again and brought to the end of history |
| Tabs.CertifiedBundleCanBePublished | browser/src/network.rs:536-566 | a tab at the end of history can publish any certified bundle within bounds, and history grows by exactly its record |
| CertifiedReplay.History.Initialize | crates/vhalla-browser-storage/src/browser/history.rs:297-371 | bootstrap and height-zero head are written together, or found to be exactly there with no record; an empty or oversized bootstrap, a different one, and history that has advanced are refused |
| CertifiedReplay.History.Append | crates/vhalla-browser-storage/src/browser/history.rs:376-403 | success means the record now ends the chain, that its base was the expected head and that head the stored one; a head that has moved is refused; a failure may still have written the record, and never rewrites anything |
| CertifiedReplay.History.ReadPage | crates/vhalla-browser-storage/src/browser/history.rs:409-434 | a page is framed, and on intact storage holds between one and sixteen consecutive records |
| CertifiedReplay.Session.ReplayRecord | browser/src/network.rs:293-310 | a saved record moves head and client together, exactly when it extends the head and is certified as it claims; otherwise nothing moves and the first of its flaws is named; the basis is never stale |
| CertifiedReplay.Session.ReplayPage | browser/src/network.rs:289-311 | replays exactly as many records as the record-by-record specification shared with the tabs, with its refusal; on intact storage no record is refused |
| CertifiedReplay.Session.ReplayNext | browser/src/network.rs:270-288 | one page is read behind the head and replayed up to the target: at least one record and at most sixteen, or an error whose cause the page shows |
| CertifiedReplay.Session.Recover | browser/src/network.rs:266-317 | from any storage the head moves along certified records only, and an error is ended with only when its cause is in what storage showed last; one call replays fewer than 272 records, and stops short of the target only behind 256; on intact storage recovery succeeds and reports completion exactly at the target |
| CertifiedReplay.OpenSession | browser/src/network.rs:318-359 | saved history is never reset, and written only on creation; a different saved bootstrap is refused in both modes; the matching one opens at genesis with the stored head as target; creation on empty calm storage opens at genesis; every error has its cause |
| CertifiedReplay.Reload | browser/src/network.rs:761-768 | a different saved bootstrap is refused and the saved one kept, nothing is initialised; on intact storage holding this bootstrap, reopening and recovering succeeds, replays at least an allowance or everything and less than an allowance and a page, and leaves a target on the chain beyond all that was saved |
| CertifiedReplay.ContinueRecovery | browser/src/network.rs:718-737 | recovery pressed until it completes ends on intact storage with head and client exactly at the saved target, ready to synchronise, in at least the gap divided by 271 calls and at most the gap divided by 256, both rounded up, whatever other tabs append meanwhile |
| CertifiedReplay.RecoveryCallsSuffice | browser/src/network.rs:39-40 | calls that each advance as Recover promises reach the target within the gap divided by 256, rounded up |
| Synchronisation.TakeBundle | browser/src/network.rs:536-566 | a bundle is committed exactly when it prepares, is within bounds and is published, and then head, target and client move together; otherwise nothing moves and the error says why; a persisted candidate is never stale |
| Synchronisation.TakeBundles | browser/src/network.rs:535-567 | bundles are taken in order, each as the next record, up to the first that cannot be; all of them when they come from a served chain that the session is supplied with |
| Synchronisation.ReadOnce | browser/src/network.rs:513-587 | what one answer makes of the endpoint: refused bundle, conflicting or matching frontier, nothing new, or more to come, each exactly when the page says so |
| Synchronisation.CatchUp | browser/src/network.rs:513-588 | reading stops only at the frontier of the last answer, at misbehaviour in it, or when the budget, the answers or the bundles run dry; unless there was misbehaviour everything sent has been kept; a served chain within the budget is followed to its end |
| Synchronisation.AskEndpoint | browser/src/network.rs:467-588 | what comes of an endpoint is settled by its renewal, and by reading from it if it was renewed; a spent budget ends the attempt before any contact |
| Synchronisation.TryPeer | browser/src/network.rs:461-589 | the peer alone is contacted; it is given up only when every usable endpoint has been asked or the last one asked has misbehaved; an error is ended with only when its cause is there |
| Synchronisation.TakeTurn | browser/src/network.rs:458-460 | the position moves past the peer before it is asked, and the account of the attempt, who was asked, what was sent, what was kept, is extended by exactly its turn |
| Synchronisation.Sync | browser/src/network.rs:448-592 | at most eight reads; every record persisted carries a bundle sent in this attempt; turn by turn around the ring, who was contacted how often and where the position ends; success means that the peer of the last turn showed, in the last answer, exactly the client's frontier; giving up means that all peers are readable and each with a usable endpoint was contacted, or the named cause in the last turn; a peer that serves all that is missing is not missed behind peers that never answer, if the budget they leave suffices |
| Synchronisation.PositionBehindTheLast | browser/src/network.rs:458-460 | the position ends behind the peer contacted last when that completed the attempt, and where it began when every peer had its turn |
| Synchronisation.SyncRepeatedly | browser/src/network.rs:738-745 | consecutive silent attempts: the session stays ready and unchanged, and the peers contacted are exactly those of the successive rounds |
| Synchronisation.SyncOncePerPeer | browser/src/network.rs:448-474 | any number of silent attempts not less than the number of peers contacts every peer if and only if that number is at most eight or not divisible by nine; otherwise the ninth peer from the position is never contacted; the session stays ready |
| Synchronisation.ReloadRecoverSync | browser/src/network.rs:718-768 | reload, continued recovery and synchronisation in a row, on intact storage: recovery cannot fail, nothing saved is lost, the client ends at or beyond all that had been saved; and on calm storage with a serving peer in reach it ends at that peer's own end |
| PeerRotation.Descent | browser/src/network.rs:458-460 | how far a peer is from the position after each silent attempt, until it is asked or sits where the budget ends |
| PeerRotation.ReachedWhenStrideMisses | browser/src/network.rs:467-474 | when the stride does not divide the number of peers, every peer is asked within that many attempts |
| PeerRotation.NeverAskedWhenStrideDivides | browser/src/network.rs:458-474 | when it does, the peer at the end of the first budget is asked by no attempt |
| PeerRotation.EveryPeerIsAskedExactlyWhen | browser/src/network.rs:458-474 | the exact condition under which every peer is asked |
| PeerRotation.RoundsReach | browser/src/network.rs:458-474 | the same condition for the peers of any sufficient number of successive rounds |
| PeerRotation.SkippedForever | browser/src/network.rs:458-474 | where it fails, the peer that is skipped forever |
| PeerRotation.NinthPeerIsNeverAsked | browser/src/network.rs:40 | with eight reads and nine peers, a concrete such peer |
| ByteCodec.ValueOfInt | prototypes/witness-vectors/generate.py:27-30 | reading a big-endian field returns what was written |
| ByteCodec.IntOfValue | prototypes/witness-vectors/generate.py:27-30 | writing a field that was read returns its bytes |
| WitnessCodec.ConditionBack | prototypes/witness-vectors/generate.py:35-50 | the decoder undoes every condition and returns the untouched suffix |
| WitnessCodec.BitSourceBack | prototypes/witness-vectors/generate.py:53-61 | the decoder undoes every bit source |
| WitnessCodec.ActionBack | prototypes/witness-vectors/generate.py:64-84 | the decoder undoes every action |
| WitnessCodec.RuleBack | prototypes/witness-vectors/generate.py:89-98 | the decoder undoes every rule with a one-byte number of conditions |
| WitnessCodec.ProgramBack | prototypes/witness-vectors/generate.py:87-99 | the decoder undoes every program with counts in range |
| WitnessVectors.ProgramHasItsVector | prototypes/witness-vectors/generate.py:181-189 | the program of the published vector has exactly the published bytes |
| WitnessManifest.WorldBack | prototypes/witness-vectors/generate.py:110-145 | the decoder undoes every world with counts in range and four-byte cell memory |
| WitnessManifest.CaseBack | prototypes/witness-vectors/generate.py:148-161 | the decoder undoes every case together with its loading work |
| WitnessManifest.SlotBack | prototypes/witness-vectors/generate.py:167-172 | the decoder undoes every slot, empty or holding a program |
| WitnessManifest.ManifestBack | prototypes/witness-vectors/generate.py:164-178 | the decoder undoes every well-formed manifest and returns exactly the bytes behind it |
| WitnessManifest.WorldDeterminedExactlyWhen | prototypes/witness-vectors/generate.py:110-145 | worlds with counts in range whose encodings begin the same bytes have as many cells, and are equal with equal suffixes if and only if the cells' memories have the same lengths |
| WitnessManifest.WorldIsSelfDelimiting | prototypes/witness-vectors/generate.py:110-145 | so worlds whose memories all have one agreed length, whatever it is, are determined by the beginning of their encoding |
| WitnessManifest.MemoryLengthsCollide | prototypes/witness-vectors/generate.py:133-144 | memories of different lengths do collide: every world with one cell and one disabled link is encoded like a world with a longer memory and no link |
| WitnessManifest.ProgramIsSelfDelimiting | prototypes/witness-vectors/generate.py:87-99 | programs whose encodings begin the same bytes are equal, with equal suffixes |
| WitnessManifest.ManifestDeterminedExactlyWhen | prototypes/witness-vectors/generate.py:164-178 | the same condition for manifests, with equal slots, cases, contract and suffix, and equal loading work unless no case carries it |
| WitnessManifest.ManifestIsSelfDelimiting | prototypes/witness-vectors/generate.py:164-178 | so manifests with four-byte memories are determined by the beginning of their encoding |
| WitnessManifest.LengthIgnoresLoadingWork | prototypes/witness-vectors/generate.py:238 | a manifest's length does not depend on the loading work |
| WitnessManifest.LoadingWorkFixpoint | prototypes/witness-vectors/generate.py:239-241 | exactly one loading work equals the length of the manifest carrying it: the measured one |
| WitnessManifest.WriteProgram | prototypes/witness-vectors/generate.py:87-99 | the writing loop gives the program's encoding, and fails exactly when a count does not fit |
| WitnessManifest.WriteWorld | prototypes/witness-vectors/generate.py:110-145 | the writing loops give the world's encoding, and fail exactly when a count does not fit |
| WitnessManifest.WriteManifest | prototypes/witness-vectors/generate.py:164-178 | the writing loops give the manifest's encoding, and fail exactly when a count does not fit |
| WitnessManifest.WriteMeasured | prototypes/witness-vectors/generate.py:239-241 | measuring first and writing with the measured length gives a manifest that states its own length |
| ArchiveFixture.DecodeOfEncode | prototypes/browser-archive-recovery/journey.rs:177-197 | decoding the encoding of a bounded fixture returns it |
| ArchiveFixture.EncodeOfDecode | prototypes/browser-archive-recovery/journey.rs:198-248 | re-encoding an accepted byte string returns exactly those bytes, and what was decoded is bounded |
| ArchiveFixture.AcceptedLanguage | prototypes/browser-archive-recovery/journey.rs:198-248 | the accepted byte strings are exactly the encodings of bounded fixtures |
| ArchiveFixture.Encode | prototypes/browser-archive-recovery/journey.rs:177-197 | the extending loops give the frame |
| ArchiveFixture.Decode | prototypes/browser-archive-recovery/journey.rs:198-248 | the cursor accepts exactly what the grammar does, with the same fixture and the same error |
| ConfigLexer.NoPieceExactlyUnterminated | verify/run_tlc.py:85-90 | no piece can be taken exactly where a comment or quoted value opens that no beginning of the rest completes |
| ConfigLexer.FailsExactlyOnUnterminated | verify/run_tlc.py:67-92 | lexing fails exactly on texts where it comes to such a place |
| ConfigLexer.CommentsAreSpaces | verify/run_tlc.py:74-86 | replacing every comment by one space changes neither the words nor failure |
| ConfigLexer.OnlyCommentsBecomeSpaces | verify/run_tlc.py:74-86 | in the text with comments replaced every other piece is as it was, and no comment is left |
| ConfigLexer.UnitsAreExchangeable | verify/run_tlc.py:74-92 | where lexing comes to a complete comment or quoted value, another of its kind may stand there: the words before and behind stay, and only a quoted value is itself a word |
| ConfigLexer.CommentTextIsIrrelevant | verify/run_tlc.py:74-86 | exchanging one complete comment for any other, where lexing comes to it, changes nothing |
| ConfigLexer.WordsLexToThemselves | verify/run_tlc.py:87-93 | the words of a text, written out with a space behind each, lex to the same words |
| ConfigLexer.SkipBlockComment | verify/run_tlc.py:76-86 | the depth-counting loop finds the end of a nested comment, or its absence |
| ConfigLexer.Tokens | verify/run_tlc.py:67-93 | the index loop computes the words, on every text, and fails exactly when the specification does |
| ConfigGrammar.CommentEndsWhereBalanced | verify/run_tlc.py:76-86 | open comments are closed exactly where the closing marks first outweigh the opening ones by as many |
| ConfigGrammar.CommentsAreBalanced | verify/run_tlc.py:76-86 | the complete comments are exactly the texts that open with a mark, balance at their end and nowhere before |
| ConfigGrammar.CommentsNest | verify/run_tlc.py:80-81 | a comment put between comment marks is a comment |
| ConfigGrammar.QuotedValuesAreItems | verify/run_tlc.py:88 | the quoted values are exactly plain characters and protected characters between two quotes |
| ConfigGrammar.LineMeaning | verify/run_tlc.py:74-75 | a line comment takes its first line end, or all there is |
| ConfigGrammar.NameMeaning | verify/run_tlc.py:20 | a name runs as far as letters, digits and underscores do |
| ConfigGrammar.Spaces | verify/run_tlc.py:71 | the twelve characters that are spaces |
| ConfigGrammar.NameCharacters | verify/run_tlc.py:20 | the characters that names begin and go on with |
| ConfigDeclarations.IdentifierMeaning | verify/run_tlc.py:107 | a declared name begins like a name and goes on like one to its end |
| ConfigDeclarations.GovernedMeaning | verify/run_tlc.py:99-105 | a position is governed by a keyword exactly when one stands before it with no section word between |
| ConfigDeclarations.DeclaredMeaning | verify/run_tlc.py:99-112 | a name is declared exactly where it stands under one of the keywords |
| ConfigDeclarations.CommentsDeclareNothing | verify/run_tlc.py:68 | turning comments into spaces changes no declaration |
| ConfigDeclarations.CommentTextDeclaresNothing | verify/run_tlc.py:68 | exchanging the text of a comment changes no declaration |
| ConfigDeclarations.AlikeDeclareAlike | verify/run_tlc.py:96-115 | word lists differing only inside quotes are well formed together and then declare the same |
| ConfigDeclarations.QuotedTextDeclaresNothing | verify/run_tlc.py:68 | exchanging the text of a quoted value changes no declaration |
| ConfigDeclarations.ReadNames | verify/run_tlc.py:102-111 | reads exactly the names up to the next section word; refuses only configurations that are not well formed |
| ConfigDeclarations.ConfigDeclarations | verify/run_tlc.py:96-115 | accepts exactly the well-formed configurations and returns the names under each kind in order, though it rescans the words behind every keyword |
| TraceReader.ShapeIsUnique | verify/run_tlc.py:263-318 | a record sequence has at most one shape |
| TraceReader.RecordsOfAShapeFollow | verify/run_tlc.py:268-318 | no record of a well-shaped sequence is refused at its place |
| TraceReader.RefusedHasNoShape | verify/run_tlc.py:268-318 | a record refused at its place means the whole has no shape |
| TraceReader.ActionNameMeaning | verify/run_tlc.py:300-302 | the action read from a title is exactly the name between its brackets, with nothing but a space and more behind it |
| TraceReader.CheckBody | verify/run_tlc.py:287-299 | comparing the set and the number of assigned names with the variables accepts exactly the bodies that assign every variable once, to something, with nothing before |
| TraceReader.BlankBodyHasBlankText | verify/run_tlc.py:269-282 | a body counts as blank exactly when its whole text is |
| TraceReader.ReadRecord | verify/run_tlc.py:265-318 | one turn of the loop accepts exactly the records that may follow, and extends the trace by them |
| TraceReader.ParseTrace | verify/run_tlc.py:256-323 | accepts exactly consecutive states, an optional loop, temporal completion only behind it, statistics and finish; returns those states in order and the loop |
| Brokers.DisclosureBroker.Open | prototypes/agent-compartment/broker.py:105-118 | a broker exists exactly for its grant's context and a deadline within a day; it starts with the granted quota |
| Brokers.FullIdMeaning | prototypes/agent-compartment/broker.py:26-28 | an identifier is 32 bytes that are not all zero |
| Brokers.DisclosureBroker.Revoke | prototypes/agent-compartment/broker.py:120-121 | changes the revoked flag alone |
| Brokers.DisclosureBroker.Authorize | prototypes/agent-compartment/broker.py:127-138 | the checks in order, with their effect on the clock floor and the flag |
| Brokers.DisclosureBroker.BeginDisclosure | prototypes/agent-compartment/broker.py:148-154 | up to the foreign call: quota is reserved exactly when nothing is refused |
| Brokers.DisclosureBroker.EndDisclosure | prototypes/agent-compartment/broker.py:153-163 | after the foreign call: the answer is handed over, or the grant ends; never busy afterwards |
| Brokers.RunKeepsInv | prototypes/agent-compartment/broker.py:127-163 | every interleaving of callers keeps the invariant |
| Brokers.QuotaIsConserved | prototypes/agent-compartment/broker.py:149-152 | sent requests plus remaining attempts are the grant's; at most one call is out; at most one attempt ever fails |
| Brokers.OnlyTheGrantedRequestIsSent | prototypes/agent-compartment/broker.py:135-138 | whatever is asked, only the request the grant was made for ever leaves |
| Brokers.OverExactlyWhenEnded | prototypes/agent-compartment/broker.py:127-163 | exactly which actions end a grant |
| Brokers.SentExactlyWhen | prototypes/agent-compartment/broker.py:148-154 | a request is sent exactly when the grant is alive, the clock sound, the request the granted one, nothing out and quota left |
| Brokers.AnsweredExactlyWhen | prototypes/agent-compartment/broker.py:153-163 | an answer is handed over exactly when nothing has ended the grant by the time it arrives; otherwise the attempt has failed |
| Brokers.OverIsForever | prototypes/agent-compartment/broker.py:141-147 | after a failed attempt, a withdrawal, expiry or a bad clock reading, nothing is ever sent and no answer handed over |
| Brokers.RefusedRequestLeavesNoTrace | prototypes/agent-compartment/broker.py:127-150 | while the grant lasts, leaving a refused request out of a run changes nothing that is sent, answered or charged: only the clock was read |
| Brokers.GrantCanBeUsedUp | prototypes/agent-compartment/broker.py:140-163 | a caller asking in turn and in time receives an answer for every attempt |

## Left out

- The mutant switches of the finite models (four in `recovery.rs`, six in `delivery.rs`, the tail fast path in `egress.rs`) are fixed to false; their counterexamples and the concrete witness traces are finite runs.
- Signatures, certificates, hashing and encryption: certificate checking is an arbitrary function of frontier and bytes, the ledger's content address and the broker's digest are function parameters, assumed free of collisions only where a member's `requires` says so.
- Fixed-width overflow of ledger ids, actors and sequences (they are only compared) and of the cursor offset in `decode` (bounded by the frame limit); browser heights are bounded by the 64-bit maximum.
- The shipping ledger's checkpoints, snapshots and state roots.
- IndexedDB, Fetch, clocks, page rendering and the selection store: storage, network and renewal are environments with the contracts above; clock faults and selection conflicts are two of the outcomes of a renewal, and the clock reading with which `sync` begins is taken to be sound.
- `commit_after_persist`'s checkpoint anchor, and the byte budget of `read_page`, which can only shorten a page.
- `recover` and `sync` await; other tabs' effects happen at the awaits of the storage methods. Within one tab the page admits one action at a time, as its busy flag does.
- `add_peer`, `join`, and the discovery, continuity, activity and puzzle panels.
- WitnessManifest.WorldBack: the decoder is for cell memory of four bytes, the length the repository's vectors use, because the length is not written. `WriteWorld` specifies what is written for any length, and `WorldDeterminedExactlyWhen` says exactly which lengths make two worlds distinguishable.
- The receipt, candidate and challenge encodings of the witness vectors and their digests; a Python error while packing is one failure value.
- Splitting checker output into records, and a record's text into assignments, by regular expressions: `TraceReader` starts from records so split. Headers that look like states but do not parse are refused before that. An empty variable set, for which the program raises a different exception, is refused.
- Spaces are the ASCII ones and the two Latin-1 ones; Unicode letters and digits are single-character words, as in the program's identifier pattern.
- `run_tlc.py`'s manifests, path checks, subprocesses and result assessment.
- The validity checks of the broker's provider strings, and the framing, pipes and sandbox of the agent prototype.
- ConfigDeclarations.ConfigDeclarations: which of several errors is reported is not distinguished, since the program's callers do not distinguish them.
