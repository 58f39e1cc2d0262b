# Termchat-I2P: verified model

A Dafny model of the parts of Termchat-I2P where several parties, several steps or
several files have to agree, with proofs about every run of them.

- **Offline delivery** (`OfflineState`, `OfflineEndpoint`, `SweepFacts`, `RecordOrder`,
  `DeliveryProtocol`, `OneAtATime`, `SweepProgress`, `RunProgress`, `ProbeRuns`, `GapMisses`). A sender
  puts message after message under indexed keys on write-once dead drops. A receiver sweeps
  a sliding window of indexes and keeps a base, consumed, missing and skipped indexes;
  index-sync frames re-align the two. `Endpoint` updates its fields in place as the client
  does, and every method is proved against a function on the value `RecvState`.
  `DeliveryProtocol` runs those functions as one step relation in which PUTs overlap,
  replies are lost, blobs are lost or stored only after their PUT failed or was cut off, a
  sweep is interleaved with everything else, frames are delayed and repeated, and both ends restart from what was
  saved.
- **The state file and the key schedule** (`Text`, `OfflineText`, `ByteText`,
  `KeySchedule`): what is saved is what is loaded, and the separate watcher program reads
  the same file and derives the same keys.
- **The dead drop** (`RateLimit`, `ProofOfWork`, `DropServer`): the sliding-window rate
  limiter, the proof of work as client and both servers compute it, the request line and
  the write-once store.
- **Group rosters** (`MemberOrder`, `Roster`, `RosterRecord`, `RosterOwner`,
  `RosterEffects`, `RosterMerge`): the owner's versioned and signed member list, what
  members rebuild from it, and convergence whatever reaches them.
- **Connections** (`OneToOne`, `GroupDial`, `Handshake`, `Frames`): who owns the chat while
  tasks run in each other's await points, the tie-break of simultaneous group dials, the
  hybrid session-key handshake over two FIFO streams, and the frame codec beneath it.

Where the source updates an object in place the model has a class (`Endpoint`, `Record`,
`Entry`, `Chat`, `E2E`, `Reader`, `Limiter`, `Server`), each of whose methods states its
whole new state as a function of the old one. The lemmas are about those functions.

Symbols stand for cryptography: a signature names its key and payload, a Diffie-Hellman
secret is the pair of private keys, a KEM secret names key pair and seed, SHA-256 is a
function parameter. Clocks, stream events and server replies are parameters of the steps.

Some things the code does not do are stated as such, most of them with the exact condition
under which it does:

- Three things cost the next message: a reply that is lost after a blob was stored
  (`OneAtATime.NextIndexUnusedIff`), a restart that cuts off a PUT which stored its blob
  (`OneAtATime.NextIndexUnusedAfterRestartIff`), and a drop that stores a blob only after
  its PUT timed out and was reported as failed, as a drop waits 15 seconds for a blob and a
  client 8 for the answer (`OneAtATime.NextIndexUnusedAfterStraggleIff`,
  `OneAtATime.LateStoreUsesTheNextIndex`).
- Misses confirmed before an index was known to be sent count towards skipping it
  (`RunProgress.GivenUpAfterExactly`, `GapMisses.EarlyMissesCount`).
- The two ends of a hybrid call agree on a key only if the callee had handled the caller's
  greeting when it accepted (`Handshake.HybridAgreesIff`).
- EXISTS may answer for a blob nobody can fetch any more (`DropServer.ExistsButMissedIff`).
- A group dial of the lower side, which its tie-break prefers, is closed on arrival exactly
  if the higher side still holds another stream as ready (`GroupDial.ClosedOnArrivalIff`),
  and a handshake that fails on the accepting lower side leaves its entry blocked for good
  (`GroupDial.FailedWelcomeIsForGood`).
- A member admitted while the owner removes another is dropped again
  (`RosterEffects.AdmissionLostToRemoval`), and a name taken meanwhile is lost unless it was
  written into the entry the removal keeps (`RosterEffects.RenameSurvivesIff`).

## Model

| member | source | states |
|---|---|---|
| OfflineEndpoint.Endpoint.constructor | termchat-i2p.py:2528-2536 | a new endpoint holds exactly the reset receiver state, its secret and send index 0 |
| OfflineEndpoint.Endpoint.FinishPut | termchat-i2p.py:1614-1633 | the send index moves by one exactly if some drop answered OK or EXISTS, and nothing else changes |
| OfflineEndpoint.Endpoint.ReceiveIndexSync | termchat-i2p.py:4887-4894 | both indexes become the maximum of old and received; the rest of the state is untouched |
| OfflineEndpoint.Endpoint.GetRecvWindow | termchat-i2p.py:2498-2508 | the loop lists the unconsumed indexes of the window, clamped at 2^64 |
| OfflineEndpoint.Endpoint.AdvanceBase | termchat-i2p.py:2511-2525 | the loop stops at the least index not held, or at the u64 ceiling, and drops what it passed |
| OfflineEndpoint.Endpoint.BoundRecoveryState | termchat-i2p.py:2554-2560 | both maps keep their 512 smallest entries |
| OfflineEndpoint.TakeSmallest | termchat-i2p.py:2554-2560 | taking the first n of the sorted items is keeping the keys with fewer than n keys below them |
| OfflineEndpoint.Endpoint.BuildPollTargets | termchat-i2p.py:6996-7030 | window, then a forward probe, then a recovery probe, with the probe bookkeeping |
| OfflineEndpoint.Endpoint.RecoveryTargets | termchat-i2p.py:7016-7028 | the sorted walk finds the least due index, probes it alone and stamps it |
| OfflineEndpoint.Endpoint.RecordAuthenticated | termchat-i2p.py:7033-7054 | the whole new state after one authenticated index |
| OfflineEndpoint.Endpoint.TallyMisses | termchat-i2p.py:7058-7071 | counting index by index equals counting the set at once |
| OfflineEndpoint.Endpoint.PromoteGaps | termchat-i2p.py:7073-7087 | exactly the confirmed gaps become skipped, and known skips keep their entry |
| OfflineEndpoint.Endpoint.ForgetSkippedMisses | termchat-i2p.py:7089-7090 | no skipped index stays counted as missing |
| OfflineEndpoint.Endpoint.FinalizeSweep | termchat-i2p.py:7057-7114 | the whole new state at the end of a sweep |
| OfflineEndpoint.Endpoint.JudgeReplies | termchat-i2p.py:7143-7201 | one index is a hit exactly if some drop returned an authentic new blob, a miss exactly if some drop said MISS and none returned a blob |
| OfflineEndpoint.Endpoint.PollOnce | termchat-i2p.py:7118-7214 | a pass over all targets is the function Sweep that progress is proved about; secret and send index stay |
| OfflineEndpoint.Endpoint.LoadState | termchat-i2p.py:2609-2718 | reading the file in place is the function Load that the round trip is proved about |
| OfflineEndpoint.Endpoint.LoadLists | termchat-i2p.py:2650-2708 | the three lists are replaced by what their entries parse to, malformed entries left out |
| SweepFacts.PolledIff | termchat-i2p.py:6996-7030 | index by index when it is polled: in the window and not consumed, one probe past it after three stalled sweeps, the lowest due skipped index once a minute |
| SweepFacts.SkippedIff | termchat-i2p.py:7057-7098 | an index is skipped after a sweep exactly if skipped at most 14 days ago or newly missed three times between base and known, and fewer than 512 lower ones are; at every size of the maps |
| SweepFacts.MissingIff | termchat-i2p.py:7057-7101 | an index is counted missing, with its count and the times of its first and last counted miss, exactly if it was ever missed, is neither skipped nor a gap, and fewer than 512 lower ones are; at every size of the maps |
| SweepFacts.ForgottenBehindMany | termchat-i2p.py:2554-2560 | bounding forgets a skip only when 512 lower ones are kept |
| RecordOrder.RecordSeqIsFound | termchat-i2p.py:2511-2525 | recording indexes one by one, with repeats, leaves the state that names only the set of them |
| RecordOrder.OrderIsIrrelevant | termchat-i2p.py:7033-7054 | any two orders of the same finite set give the same base, consumed, skipped, missing, known and highest |
| RecordOrder.BaseIsLeastUnfound | termchat-i2p.py:2511-2525 | the final base is n exactly if n is the least index from the old base on that is neither held nor recorded |
| DeliveryProtocol.ReachableIsSafe | termchat-i2p.py:1614-1633 | in every reachable state, with blobs stored late after a failed or cut off PUT included, stored indexes are at most send, base <= known <= send + 1, the base is not held, and everything consumed was delivered |
| DeliveryProtocol.PassedIndexesAreJustified | termchat-i2p.py:7057-7101 | every index below the base was delivered, or some sweep skipped it below known after at least three sweeps each confirmed a miss |
| DeliveryProtocol.ReceiverStepKeeps | termchat-i2p.py:7118-7214 | sweeps, answers, saves, restarts and syncs at the receiver keep the receiver's bound and touch nothing of the sender |
| DeliveryProtocol.StepKeepsInv | termchat-i2p.py:4887-4894 | every single step of either side keeps the two-party invariant |
| DeliveryProtocol.FinalizeKeeps | termchat-i2p.py:7057-7101 | ending a sweep keeps miss counts below the logged misses and justifies every new skip |
| DeliveryProtocol.UninterruptedSweep | termchat-i2p.py:7118-7214 | the protocol's separate steps of a sweep, run without interruption, add up to the one function Sweep |
| OneAtATime.NextMessageIsAwaited | termchat-i2p.py:1614-1633 | with sends one at a time, no stored PUT reported failed or cut off by a restart, and no late store at an index that is still to be used or just in use, base <= known <= send between sends and the next index was never stored, consumed or passed |
| OneAtATime.SuccessMeansStored | termchat-i2p.py:1617-1630 | under the same hypotheses a PUT counts as sent exactly if it stored its own blob, although EXISTS counts as success |
| OneAtATime.NextIndexUnusedIff | termchat-i2p.py:1617-1633 | when put answers, the next index is unused exactly if no stored blob was reported failed or a sync had moved the send index |
| OneAtATime.NextIndexUnusedAfterRestartIff | termchat-i2p.py:1614-1633 | when a restart cuts a PUT off, nothing is under way any more, and the next index is unused exactly if the PUT had stored nothing or a sync had moved the send index |
| OneAtATime.NextIndexUnusedAfterStraggleIff | deaddrop.py:186-226 | when a drop stores a blob between sends, after its PUT failed, timed out or was cut off, the next index stays unused exactly if it is not that index |
| OneAtATime.IndexesKeptAfterStraggleIff | SERVER/deaddrop-server.py:303-329 | at any time, a PUT under way included, such a late store leaves the next index and the one under way to their own PUTs exactly under the hypothesis for that step |
| OneAtATime.LateStoreUsesTheNextIndex | SERVER/deaddrop-server.py:309-325 | a concrete run, keeping every hypothesis up to a PUT that fails with nothing stored, after which a late store at the next index is possible and uses it |
| OneAtATime.LostReplyLosesTheNextMessage | termchat-i2p.py:1617-1633 | a concrete run in which a lost reply makes the next message reuse a read index and still count as sent |
| SweepProgress.DefiniteSweep | termchat-i2p.py:7057-7109 | an uninterrupted sweep with a definite answer at the base moves it or counts exactly one more round, fewer than three |
| SweepProgress.FinalizeAtBase | termchat-i2p.py:7057-7101 | the end of a sweep that missed the base moves it exactly if something past it is known and this was at least the third miss, and otherwise counts one |
| SweepProgress.FinalizeUnmissed | termchat-i2p.py:7057-7101 | the end of a sweep without an answer at the base moves it exactly if it was due already, and otherwise leaves its count |
| RunProgress.RunKeepsPace | termchat-i2p.py:7118-7214 | over protocol runs, with frames, sends and restarts at any point, the measure of three rounds per index falls with every finished sweep until the goal is passed, for what is held and for what is saved |
| RunProgress.CatchesUp | termchat-i2p.py:2498-2525 | from any reachable state between sweeps, restarts included, three finished sweeps for each index between base and one known at the start are enough to reach it |
| RunProgress.LeavesBaseWithinThree | termchat-i2p.py:7057-7101 | while something past it is known, the base strictly increases within three answered sweeps, however often the receiver restarts |
| RunProgress.ReachableIsKept | termchat-i2p.py:2609-2748 | in every reachable state both maps are within 512 entries, so a restart loses none of them, and between sweeps what is saved agrees with what is held on base, known and missing |
| RunProgress.SavedIsNeverLost | termchat-i2p.py:2727-2748 | after a save, the end of a sweep or a sync frame, base and known next send never fall below what they were or were told, whatever restarts follow |
| RunProgress.SyncAligns | termchat-i2p.py:4887-4894 | one exchange of sync frames lets the receiver know of every used index and the sender use none that was passed |
| RunProgress.SendNeverFalls | termchat-i2p.py:4887-4894 | over every run the send index never falls, nor below a base the receiver told |
| RunProgress.GivenUpIff | termchat-i2p.py:7073-7087 | over every run from a reachable state between sweeps (`RunProgress.IdleStands`), restarts included, in which an index is never found, the base leaves it exactly if a sweep ended after something past it was known, by frame or hit, and three misses were confirmed in all |
| RunProgress.GivenUpAfterExactly | termchat-i2p.py:7073-7101 | it is given up with exactly 3 - r known misses, r counted before, and with none but the last sweep's own from r = 3 on; so with three exactly if r = 0 |
| ProbeRuns.ForwardProbeIff | termchat-i2p.py:7102-7112 | over every run, a sweep probes forward exactly if each of the last three finished sweeps since the start or the last restart found nothing and left the base |
| ProbeRuns.FirstForwardProbe | termchat-i2p.py:7102-7107 | the first forward probe after the start, or after a finished sweep that moved the base or found something, is at base + window, whatever restarts came between |
| ProbeRuns.ForwardProbesInOrder | termchat-i2p.py:7002-7014 | while sweeps stay quiet and nothing restarts, the k-th forward probe is k past the first up to the ceiling, so below it no index is probed twice |
| ProbeRuns.ProbedIff | termchat-i2p.py:7002-7014 | after q quiet sweeps in a row exactly the q - 3 indexes from the window's end on were probed, so each is reached |
| ProbeRuns.RecoveryProbesApart | termchat-i2p.py:7016-7028 | any two recovery probes without a restart between them are 60 seconds apart for each step between them |
| ProbeRuns.RecoveryIsStamped | termchat-i2p.py:7016-7028 | the probed entry carries the time of its probe and no other entry changes |
| GapMisses.PassedAfterKnownMisses | termchat-i2p.py:7057-7101 | every index below the base was delivered, or skipped below known with known and early logged misses that together make three |
| GapMisses.NoEarlyMissThreeKnown | termchat-i2p.py:7057-7101 | without an early logged miss, every index below the base was delivered or took three misses each confirmed while it was below known |
| GapMisses.EarlyMissesCount | termchat-i2p.py:7073-7087 | a legal run from a fresh system in which index 0 is passed with one known miss, after two early ones |
| OfflineText.ReadFields | termchat-i2p.py:2619-2628 | the line loop yields the last value of every key, whatever the text |
| OfflineText.ReadMap | termchat-i2p.py:2672-2708 | the entry loop yields the entries that parse, a later one replacing an earlier one |
| OfflineText.ParseOfRender | termchat-i2p.py:2727-2746 | reading written lines back assigns exactly the written fields |
| OfflineText.ParseMapOfRender | termchat-i2p.py:2738-2745 | a rendered map parses back to itself, for any entry format that round-trips |
| OfflineText.SaveThenLoad | termchat-i2p.py:2609-2748 | loading a saved file into a reset client gives the saved secret, send index and restored receiver state |
| OfflineText.SaveThenLoadLosesNothing | termchat-i2p.py:2609-2748 | with base <= known and maps within 512 entries every persisted field comes back unchanged |
| OfflineText.LoadNeverLowers | termchat-i2p.py:2638-2711 | loading any text never lowers send, base, known, highest or forward probe |
| OfflineText.LoadStaysPersistable | termchat-i2p.py:2609-2718 | whatever a file says, a state that could be saved can be saved after loading it: 32-byte secret, positive 32-bit window, 64-bit indexes and times, at most 512 entries a map |
| OfflineText.LoadKeepsUnusable | termchat-i2p.py:2630-2648 | an unusable secret or window leaves the one the client has |
| OfflineText.LastEntryWins | termchat-i2p.py:2672-2708 | what a list says of an index is what its last entry for it says; entries that do not parse change nothing |
| OfflineText.LastLineWins | termchat-i2p.py:2619-2628 | what a file says of a key is what its last line for it says; other lines change nothing |
| KeySchedule.SendMeetsReceiveIff | termchat-i2p.py:2455-2489 | the material sent at an index is the material looked for at it exactly if the two ids differ |
| KeySchedule.AddressesMeetIff | termchat-i2p.py:2448-2489 | between two valid addresses that is exactly if the addresses differ |
| KeySchedule.AddressIsParty | termchat-i2p.py:2448-2452 | stripping a valid address leaves its 52 base32 characters |
| KeySchedule.MaterialInjective | termchat-i2p.py:2481-2489 | equal material means equal secret, ids, direction label and index |
| KeySchedule.UsesDiffer | termchat-i2p.py:2455-2489 | for one pair of parties, another direction or index is another material |
| KeySchedule.ClientWindow | termchat-i2p.py:2498-2508 | the key list is the receive window with each index's key, or an error exactly if a key is needed and the peer unknown |
| KeySchedule.WatcherWindow | ddwatcher.py:515-543 | the watcher's loop lists the unconsumed indexes up to its own, capped end, with the keys of its own derivation |
| KeySchedule.WatcherDerivesTheSame | ddwatcher.py:515-540 | the watcher's own id, label and join steps give the material the client looks for, from any spelling of the same two addresses |
| KeySchedule.WatcherAgreesIff | ddwatcher.py:515-543 | the two lists are equal exactly if every index between the two ends is consumed; windows of 1..256 below 2^64 have equal ends |
| KeySchedule.WatcherAlwaysLooks | ddwatcher.py:527 | whatever window a file says, the watcher looks at 1 to 256 indexes |
| KeySchedule.WatcherDefaults | ddwatcher.py:374-406 | a missing field stands for base 0, a window of 8 and nothing consumed |
| KeySchedule.WatcherReadsSave | ddwatcher.py:374-406 | the watcher's own parser reads secret, base, window and consumed set from the client's file |
| KeySchedule.WatcherFollowsClient | ddwatcher.py:546-570 | from the file the client saved, and with its own derivation from any spelling of the same two addresses, the watcher polls the very keys the client polls |
| RateLimit.Limiter.AllowPut | SERVER/main.rs:76-94 | the pop loop and the push leave exactly the recent times, plus now if admitted |
| RateLimit.AdmittedIff | SERVER/deaddrop-server.py:142-156 | in clock order a PUT is admitted exactly if fewer than 500 were admitted in the 60 seconds up to it |
| RateLimit.RemembersIff | SERVER/deaddrop-server.py:142-156 | in clock order the limiter remembers exactly the admitted times of the 60 seconds up to the newest call |
| RateLimit.NeverMoreThanLimit | SERVER/deaddrop-server.py:142-156 | in clock order no closed 60-second interval, anywhere in the run, holds more than 500 admitted PUTs |
| RateLimit.NeverMoreThanLimitNearly | SERVER/deaddrop-server.py:142-156 | with calls out of clock order by at most d, no closed interval of 60 seconds less d holds more than 500 |
| RateLimit.OutOfOrderExceeds | SERVER/main.rs:76-94 | a concrete run with two calls one nanosecond out of clock order admits 501 in 60 seconds |
| ProofOfWork.PowOkIff | SERVER/deaddrop-server.py:171-183 | the check holds exactly if the digest as a big-endian number is below 2^(256 - bits), for every difficulty up to 256 |
| ProofOfWork.ServersAgreeIff | SERVER/main.rs:192-210 | the unmasked Python shift and the u8 mask agree on every digest, except the zero digest at difficulty 256 |
| ProofOfWork.MaterialInjective | SERVER/deaddrop-server.py:161-168 | for valid keys, equal material means equal key, blob and counter |
| ProofOfWork.FindPowCounter | deaddrop.py:150-162 | the search returns the least accepted counter, below the bound, and both servers accept it |
| DropServer.PutLineIsReadIff | SERVER/deaddrop-server.py:240-301 | the server reads the client's PUT line as meant exactly if key, size and line length are within limits |
| DropServer.GetLineIsReadIff | SERVER/deaddrop-server.py:334-342 | the server reads the client's GET line as meant exactly if the key is valid |
| DropServer.CommandIff | SERVER/deaddrop-server.py:240-342 | any line at all is the PUT, the GET or the empty line its words say, exactly under the checks of the source |
| DropServer.OtherLineVerdict | SERVER/deaddrop-server.py:240-250 | a line of no words gets no reply, an unusable one ERR, and neither leaves a trace |
| DropServer.LimiterFollowsPuts | SERVER/deaddrop-server.py:303-307 | over every run the limiter's state is that of its own run over the clocks of the usable PUT lines, so its theorems hold of the server |
| DropServer.BodyVerdict | SERVER/deaddrop-server.py:309-329 | a body that is too short gets no reply, unworked bytes are refused, neither changes the store, and the connection awaits nothing any more |
| DropServer.Server.StartRequest | SERVER/deaddrop-server.py:237-368 | a request's whole effect on store and limiter up to its reply, or up to the await of a PUT's body |
| DropServer.Server.FinishPut | SERVER/deaddrop-server.py:309-329 | the rest of a PUT, from whatever the store is by then: too short, refused for its work, EXISTS, or stored |
| DropServer.Server.CollectExpired | SERVER/deaddrop-server.py:194-218 | a collection round removes exactly the expired blobs |
| DropServer.PutAnswer | SERVER/deaddrop-server.py:303-329 | a worked PUT that was admitted, with anything served before its body came, is answered OK exactly if its key is free by then and EXISTS exactly if not, and only OK changes the store |
| DropServer.LineAnswer | SERVER/deaddrop-server.py:265-307 | a client's PUT line is admitted exactly if the limiter has room, and is refused otherwise |
| DropServer.FirstBodyWins | SERVER/deaddrop-server.py:309-329 | of two PUTs awaiting their bodies for one free key, in whichever order they were admitted and whatever is served in between, the first body there is stored and kept and the other is told EXISTS |
| DropServer.RunKeepsWorked | SERVER/deaddrop-server.py:265-325 | over every run every stored blob has a usable key and size and passed the proof of work |
| DropServer.StoredBlobStays | SERVER/deaddrop-server.py:317-329 | until its time to live is over no request, no body awaited meanwhile and no collection changes or removes a stored blob |
| DropServer.RemovedIff | SERVER/deaddrop-server.py:194-218 | a step removes a stored blob exactly if it is a collection or a GET for its key past its time to live |
| DropServer.ServedWasStored | SERVER/deaddrop-server.py:334-368 | over every run a GET misses exactly if the drop holds no blob within its time to live, and returns only what an earlier PUT was told OK for |
| DropServer.PutThenGet | SERVER/deaddrop-server.py:317-368 | after an OK, whatever else is served, a GET within the time to live returns that very blob |
| DropServer.ExistsButMissedIff | SERVER/deaddrop-server.py:319-361 | right after EXISTS a GET misses exactly if the blob in the way is past its time to live |
| MemberOrder.SortOrders | group_ops.py:107-110 | sorting distinct addresses gives the strictly ordered list of the same members |
| MemberOrder.OrderedUnique | group_ops.py:107-110 | two ordered lists of the same members are the same list |
| MemberOrder.SortForgetsOrder | group_ops.py:107-110 | the canonical order does not depend on the order members came in |
| MemberOrder.SortsAnyList | group_ops.py:107-110 | any list at all, equal addresses included, comes out ordered by address and then name with the very same entries |
| RosterRecord.Record.CanonicalMembers | group_ops.py:93-110 | the loop yields the normalised, deduplicated, owner-completed and sorted list |
| RosterRecord.Record.MergeGroupMember | group_ops.py:113-132 | the whole new member list, and whether it changed; a changed member is a new entry, every other entry stays the object it was |
| RosterRecord.Record.SignIfAdmin | group_ops.py:201-213 | the owner's record gets a key if it had none and a signature over its current content |
| RosterRecord.Record.RedeemToken | group_ops.py:322-341 | the redeemed record, or the reason with the record untouched |
| RosterRecord.Record.ApplyRename | group_ops.py:135-150 | the renamed record, or the reason with the record untouched; the name is written into the entry, so the list of entries stays the same |
| RosterRecord.Record.StartRemoval | termchat-i2p.py:5505-5534 | the entries that will remain, the record's own objects, or the reason, before anything is awaited |
| RosterRecord.Record.FinishRemoval | termchat-i2p.py:5566-5569 | those entries, as they read by then, become the members of the record as it is by then, with the next version and a new signature |
| RosterRecord.SortEntries | group_ops.py:113-132 | the same entries, in the order the canonical sort gives their values |
| RosterRecord.Record.MergeRosterSync | group_ops.py:390-437 | the adopted roster, or the reason with the record untouched |
| RosterRecord.Record.MergeEach | group_ops.py:433-434 | merging in a loop is merging the list |
| RosterEffects.MergeContents | group_ops.py:113-132 | a merged member replaces whoever had its address, everyone else stays, oneself and unusable addresses are never merged |
| RosterEffects.MergesLast | group_ops.py:113-132 | after a whole list was merged each address is held by its last usable entry, or by whoever held it before |
| RosterEffects.SignedListIs | group_ops.py:93-110 | whatever the stored list is, the signed one is strictly ordered and holds the first usable entry of each address, and the owner |
| RosterEffects.RedeemEffect | group_ops.py:322-341 | it binds that token, admits the member, raises the version exactly if the list changed, and signs the result |
| RosterEffects.IssueEffect | group_ops.py:268-280 | only the owner issues; a free token is appended, the record signed, members and version stay |
| RosterEffects.IssuedTokenAdmits | group_ops.py:322-341 | whatever the owner does between, an issued token lets its first redeemer with a usable name in and is bound to it |
| RosterEffects.InviteEffect | group_ops.py:344-389 | an invite is taken by an unkeyed record exactly if well formed and, if signed, listing the owner and verifying; then members, version, key and token are told exactly |
| RosterEffects.OwnNameEffect | termchat-i2p.py:5478-5500 | exactly a usable name is taken, and the roster signed anew |
| RosterEffects.RenamesIff | group_ops.py:135-150 | a rename succeeds exactly if the name has 1 to 32 printable characters and the address is a member's |
| RosterEffects.RenameEffect | group_ops.py:135-150 | only the name at one address changes, with a new version exactly if it did |
| RosterEffects.RemovalOutcome | termchat-i2p.py:5525-5569 | whatever the owner does meanwhile, a removal leaves exactly who was there at its start without the one removed, each under the name of the last rename that reached that very entry |
| RosterEffects.RenameSurvivesIff | group_ops.py:135-150 | a rename accepted during a removal survives it exactly if the record still lists the entry the removal keeps |
| RosterEffects.SharedAtStart | termchat-i2p.py:5525-5530 | at the start of a removal it does: every kept entry is one of the record's |
| RosterEffects.RejoinedIsNewEntry | group_ops.py:113-132 | a redemption that changes the list makes a new entry and no other |
| RosterEffects.ReloadedIsNewEntries | termchat-i2p.py:5210-5226 | issuing an invite for a stored group replaces every entry by a new one |
| RosterEffects.RejoinLostToRemoval | group_ops.py:322-341 | a name taken by a redemption during a removal is lost when it ends |
| RosterEffects.AdmissionLostToRemoval | termchat-i2p.py:5536-5566 | a member admitted during the awaits of a removal is gone when it ends, its token still bound to it |
| RosterOwner.OpenedIsOwner | group_ops.py:153-213 | a new group opened by its owner satisfies the owner invariant |
| RosterOwner.OpeningInv | termchat-i2p.py:5292-5349 | so does the owner state that starts from it |
| RosterOwner.OpKeeps | group_ops.py:322-341 | every owner operation, starts and ends of removals included, keeps the invariant of record, entries and pending removals, never lowers the version and never rebinds a token |
| RosterOwner.VersionNamesOneRoster | termchat-i2p.py:5525-5569 | over any run, with any number of removals under way and renames and redemptions in between, versions never fall, equal versions mean equal members, and equal signed lists exactly if the owner's own name stayed |
| RosterOwner.TokensStayRedeemed | group_ops.py:322-341 | over any run a redeemed token keeps its address |
| RosterOwner.SyncRebuilds | group_ops.py:294-310 | every roster sync the owner builds is genuine at any receiver: it rebuilds the exact signed payload |
| RosterOwner.InviteRebuilds | group_ops.py:248-280 | every invite the owner builds is accepted by a fresh record, which then holds the signed list, version and owner |
| RosterMerge.ReceiveAllEndsAtHighest | group_ops.py:390-437 | after any received sequence whose counting rosters come from one owner and key, a record holds the newest of them, or is unchanged if none is newer |
| RosterMerge.PinnedEndsAtHighest | group_ops.py:399-437 | a record that pinned owner and key does so after any received sequence at all, rosters validly signed with other keys included |
| RosterMerge.RostersConverge | group_ops.py:390-437 | the same rosters in any order with any repetition leave the same group, for a record that has pinned nothing as well, if they come from one owner and key |
| RosterMerge.PinnedConverge | group_ops.py:399-437 | records pinned alike end alike as soon as they received the same rosters under the pinned key, whatever else reached them |
| RosterMerge.JoinTokenKeptIff | group_ops.py:430-434 | after any received sequence a record holds its join token exactly if no roster it took over lacked its own address, and none otherwise |
| RosterMerge.MemberMirrorsNewest | group_ops.py:390-437 | against an owner's run, a pinned member that changes ends as the mirror of an owner's state whose signed roster is among those received, with no newer one received: the owner's list minus itself, or empty without join token if it was removed; and it keeps its join token exactly if no roster it took over left it out |
| RosterMerge.MembersAgree | group_ops.py:390-437 | two such members that received the same of the owner's rosters hold the same group while the owner keeps its own name |
| Frames.ParseInvertsWrite | termchat-i2p.py:1739-1762 | parsing succeeds on exactly the written frames, with what was written |
| Frames.FrameVerdict | termchat-i2p.py:1739-1762 | put together from any fields, a frame is refused for its first fault: magic, version, type, size, then length |
| Frames.FoundBehindJunk | termchat-i2p.py:1700-1713 | the magic is first found behind the junk exactly if the junk does not contain it |
| Frames.ReadsOneFrame | termchat-i2p.py:1700-1735 | behind magic-free junk the sent frame is read and the stream is left right after it |
| Frames.BadHeaderIsPassed | termchat-i2p.py:1719-1733 | behind a refused header reading goes on with the very next byte |
| Frames.StreamRoundTrip | termchat-i2p.py:1685-1735 | any sequence of frames, with magic-free junk and refused headers between them, comes out as sent, in order, of a loop that passes over what is refused |
| Frames.Reader.SkipToMagic | termchat-i2p.py:1700-1713 | the four-byte tail buffer loses no match: the loop stops behind the first magic or at the end |
| Frames.Reader.ReadFrame | termchat-i2p.py:1700-1735 | the in-place reader returns what the function on the remaining bytes says, and leaves its rest |
| Handshake.E2E.FinalizeSessionKeyIfReady | e2e.py:57-78 | a key is set exactly when every secret of the mode is there, from those secrets |
| Handshake.E2E.ReceivePeerKey | e2e.py:81-90 | the classical secret is the shared one and the key is refreshed |
| Handshake.E2E.ReceivePeerPqPublic | e2e.py:99-106 | encapsulation sets the PQ secret and returns its ciphertext, or fails without change when PQ is off |
| Handshake.E2E.ReceivePeerPqCiphertext | e2e.py:108-113 | decapsulation sets the PQ secret, or fails without change when PQ is off |
| Handshake.RunKeepsInv | termchat-i2p.py:4773-4846 | in every run each side's keys are those after the frames it read, and each stream holds the rest of what was sent |
| Handshake.HybridAgreesIff | termchat-i2p.py:2267-2277 | once both streams drain both ends hold a key, and the same one exactly if the callee had handled K and Q before it accepted |
| Handshake.ClassicalAgrees | termchat-i2p.py:4241-4251 | without PQ both ends end with the same key whenever the callee accepts |
| Handshake.SessionKeyNeedsItsSecrets | e2e.py:57-78 | in every reachable state a session key rests on the classical and, in PQ mode, the PQ secret |
| GroupDial.Entry.ResumeDial | termchat-i2p.py:5823-5855 | the whole new entry, and which stream is closed or greeted, when a dialled stream is there |
| GroupDial.Entry.AcceptCaller | termchat-i2p.py:5958-5994 | the same when a caller was identified |
| GroupDial.Entry.BeginDial | termchat-i2p.py:5798-5810 | a dial that finds a stream in place ends at once |
| GroupDial.Entry.FinishDial | termchat-i2p.py:5856-5861 | the replaced stream is closed once the handshake was written |
| GroupDial.Entry.FailDial | termchat-i2p.py:5866-5874 | a failed dial leaves the entry without a stream |
| GroupDial.Entry.EndStream | termchat-i2p.py:6010-6061 | an ended stream is closed and the entry is free for a new dial |
| GroupDial.Entry.FinishAccept | termchat-i2p.py:5995-6007 | the same on the accepting side, but not after an error |
| GroupDial.TakenIff | termchat-i2p.py:5958-5999 | on either side, a caller's stream is taken and greeted exactly if the entry holds no ready stream and, on the lower side, neither holds one nor is connecting; otherwise it is closed and the entry unchanged |
| GroupDial.DialTakesIff | termchat-i2p.py:5823-5855 | a dialled stream is taken and greeted exactly if the entry holds none, or on the lower side one that is not ready; otherwise it is closed and the dial ends |
| GroupDial.NoEntryIsForgotten | termchat-i2p.py:5774-5810 | from a free entry on, it can be dialled exactly if it holds no stream and no dial is under way, and a dial never finds a stream in place |
| GroupDial.LetGoIff | termchat-i2p.py:5845-5874 | every stream an entry held or was brought is held after a step or closed, except exactly when a dial or handshake fails or a dial is called off |
| GroupDial.DialledStreamSurvives | termchat-i2p.py:5817-5861 | from any state of the higher side, under every interleaving without one of two steps, the lower side's stream is never closed, the lower side never holds another, and the higher side holds it once it took it; the two steps are its arrival while another stream is ready, and the arrival of another before it is ready |
| GroupDial.HeldIff | termchat-i2p.py:5958-5994 | over every run, the higher side holds the stream it took exactly if neither of the two steps occurred |
| GroupDial.ClosedOnArrivalIff | termchat-i2p.py:5965-5968 | the dialled stream is closed on arrival exactly if the higher side then holds another stream as ready |
| GroupDial.QuietIsNeverDisplaced | termchat-i2p.py:5958-5994 | from a higher side that is not ready, whatever older stream or dial it holds, with no older greeting to read and no older stream to take, neither step can occur |
| GroupDial.ReadySessionRefusesRedial | termchat-i2p.py:5965-5968 | a concrete run in which a redial is closed because the higher side still holds the old session as ready |
| GroupDial.BothEndsSettle | termchat-i2p.py:5958-5999 | without the two steps, once the dial is over both ends hold that stream, and every continuation leaves them there |
| GroupDial.StaysSettled | termchat-i2p.py:5774-5795 | no later event but one of the two steps undoes the end of the dial |
| GroupDial.StepRank | termchat-i2p.py:5798-5861 | each of five steps brings the dial one step nearer its end and nothing takes it back |
| GroupDial.SettlesInFiveSteps | termchat-i2p.py:5798-5999 | in every run without the two steps the dial is over exactly after its five steps, and before that the next one is enabled, its stream awaited or the higher side writing a handshake |
| GroupDial.HigherDialSettles | termchat-i2p.py:5958-5999 | a dial of the higher side to a lower side with nothing under way is over exactly after its five steps, unless the network or a dial of the lower side comes between, and both ends hold its stream from then on |
| GroupDial.HigherDialGetsReady | termchat-i2p.py:5856-5861 | with the welcome written both ends become ready with the key that arrives |
| GroupDial.LowerDialTakesOver | termchat-i2p.py:5774-5795 | a dial the lower side asks for before it took the stream starts in the state its own theorems are about |
| GroupDial.FreedIff | termchat-i2p.py:6010-6061 | an entry with nothing under way can lose its stream exactly if someone reads it and an end of it was closed, or if it is the higher side's, not ready, and another caller waits |
| GroupDial.FailedWelcomeIsForGood | termchat-i2p.py:5986-6007 | after a handshake that fails on the accepting lower side no step at either end changes its entry again: no caller is taken and no dial starts |
| OneToOne.Chat.StartConnect | termchat-i2p.py:4157-4183 | a dial starts exactly if an address is given, the session is available, and no attempt, stream or pending call exists |
| OneToOne.Chat.InvalidateConnect | termchat-i2p.py:1974-1985 | a new generation, no task, no target, the active task cancelled |
| OneToOne.Chat.ContinueConnect | termchat-i2p.py:4186-4259 | the whole effect of connect_to_peer between two of its awaits |
| OneToOne.Chat.AbortConnect | termchat-i2p.py:4261-4299 | the effect of its error and cancellation paths |
| OneToOne.Chat.FinishConnect | termchat-i2p.py:4291-4299 | only the current task clears the target, and only of its own generation |
| OneToOne.Chat.CallerArrives | termchat-i2p.py:4336-4391 | the whole effect of accept_loop once the caller is known: kept pending unless a stream or call exists, it is not the stored peer, or the attempt under way is preferred |
| OneToOne.Chat.AcceptPending | termchat-i2p.py:2215-2242 | accepting starts exactly if a call is pending and its caller still there; a dead one is cleared |
| OneToOne.InstalledIff | termchat-i2p.py:4194-4239 | in every reachable state an attempt whose stream is there takes the chat over exactly if generation, target and task are its own and neither stream nor call is there; otherwise it ends and leaves both |
| OneToOne.BecomesPendingIff | termchat-i2p.py:4336-4391 | in every reachable state a caller becomes pending exactly if the chat is free and no dial is under way, or that dial is to it and the call is preferred; that dial is then called off |
| OneToOne.ChatHeldIff | termchat-i2p.py:4121-4299 | for every step a stream is the chat's afterwards exactly if it begins with it, or was it and does not end with it |
| OneToOne.PendingHeldIff | termchat-i2p.py:2123-2242 | the same for the pending call |
| OneToOne.DialConnects | termchat-i2p.py:4157-4259 | left alone, a dial that may start connects and leaves the next one free to start after it |
| OneToOne.CallGetsThrough | termchat-i2p.py:2215-2256 | left alone, a caller is listened for, kept pending and becomes the chat |
| OneToOne.AttemptEnds | termchat-i2p.py:4261-4299 | an attempt that ends is off the list and frees task and target if they were its own; only a failed handshake takes its stream back |
| OneToOne.TaskIsCurrent | termchat-i2p.py:4145-4154 | in every reachable state a task that is set is a current attempt, and without one there is no target |
| OneToOne.CalledOffIsCancelled | termchat-i2p.py:1974-1985 | an invalidated dial can only raise, and its generation is past |
| OneToOne.CommandEnds | termchat-i2p.py:2215-2369 | accepting makes the pending call the chat, declining drops it, and nothing is being promoted afterwards |
| OneToOne.OneOwner | termchat-i2p.py:2236-2256 | at every await point an active and a pending stream coexist only during a promotion and are then the same |
| OneToOne.NeverDiscardsPending | termchat-i2p.py:4209-4231 | a pending call and a current attempt never coexist, so the branch that would discard a pending call is never taken |
| OneToOne.StaleAttemptNeverInstalls | termchat-i2p.py:4145-4154 | an attempt whose generation, target or task is no longer current never installs its stream afterwards |
| OneToOne.InvalidatedNeverInstalls | termchat-i2p.py:1974-1985 | none of the attempts there are at an invalidation does either |

## Left out

- DeliveryProtocol.PassedIndexesAreJustified: does not claim that the three misses fell after the index was known to be sent, because the code counts earlier misses too; GapMisses.EarlyMissesCount is a run of it, and GapMisses.NoEarlyMissThreeKnown and RunProgress.GivenUpAfterExactly say exactly when it holds.
- RosterOwner.VersionNamesOneRoster: does not claim equal signed lists across a change of the owner's own display name, which re-signs under the same version; the statement says they are equal exactly if that name stayed.
- RosterMerge.RostersConverge: for a record that has not pinned an owner and a key yet, the rosters must come from one owner and key, since the first one pins both; leaves out the join token, which depends on what was taken over on the way; RosterMerge.JoinTokenKeptIff says how.
- ProofOfWork.FindPowCounter: requires that some counter is accepted; the source's loop has no other end.
- RunProgress.CatchesUp: needs fewer than 512 missing and skipped entries below a missed base when a sweep ends, since bounding keeps the smallest entries before the base advances.
- Dishonest drops and peers: drops lose and withhold blobs but never move a blob to another key; an offline blob does not name its index, so a drop that did could.
- Delivery of content: the protocol follows indexes, not message texts.
- Fairness of recovery probes: the lowest due index is always taken first, so no progress above it is claimed.
- Locking, unlocking and replacing the offline secret: one lock epoch with one secret.
- Failing saves: a save is an atomic replacement of one value.
- Send indexes from 2^64 on: the sender's restart and sync frames are modelled below that only.
- The float deaddrop_last_recovery_probe_ts: kept exact, in milliseconds.
- Text beyond ASCII in strip, lower, split and int, and line ends other than a newline.
- Cryptography, JSON, gzip and base64: symbols or identity, as said above; E2E.decrypt returning what it cannot open is kept.
- The Rust server's store, which awaits between its existence check and its write and so is not write-once, and its handling of out-of-range counters.
- Collisions of the SHA-256 file names in the drop's store, half-written files and the number of clients at once.
- The legacy merge of an invite into an open group, which merges whatever the version; merge_group_invite is modelled for a record without a signing key only.
- Rename and join requests on their way to the owner: the owner's operations are applied directly.
- The lookup of a stored group when an invite is issued: it is taken to find the open group as last saved.
- Group identity frames and heartbeats: one event stands for a peer becoming ready, one for a stream being closed.
- Removal from a group during a dial, and closing the application or the group.
- 1:1 identity pinning (TOFU), the offline mode switch and command parsing; addresses are numbers, equal as the source compares them in lower case.
- A read of a frame that is cancelled half way: the reader model runs each frame to its end or the end of the stream.
- How long anything takes: timeouts are events that may happen at any time.
- File and image transfer, server scoring, screens, SAM sessions and the vault: nothing there spans several parties or steps in a harder way.
