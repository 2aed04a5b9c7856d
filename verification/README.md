# Verified model of the Syncer engine

Syncer keeps a folder equal on two devices that talk to each other directly. Each
device has the folder, an index of its files (`files`), a queue of work
(`sync_operations`) and a small HTTP server through which the other device reads,
writes and deletes files. A round scans both folders, compares the two manifests,
queues what the comparison calls for, and then executes queued transfers one by
one, checking hashes and sizes on the way.

This project models that engine and the codecs and planners that feed it, and
proves what they promise.

The state exists twice. As a value, a device is a `Device` (settings, a map from
paths to contents, and its tables) and the two of them are a `World`; every
operation is a function on them, and the theorems are about these functions and
about runs of any length. A run is a sequence of moves of either device
(`Interleaving.Move`): an edit from outside, a command of the user, or the next
stage of a plan or a queue run, which is one scan, one fetched manifest, one listing
or one executed operation. Any number of plans and queue runs of both devices may be
under way at once, holding manifests and operations of any age.

As objects, `StateDb.StateDatabase` and `Agent.Folder` have mutable fields, and the
methods of `StateDb`, `Agent`, `Scanner`, `Framing`, `PeerReader` and `SyncLoop`
follow the program statement by statement; the contract of each says which
value-level function it computes, so that the theorems hold of them.

| files | subject |
|---|---|
| `Domain`, `Wrappers`, `Ordering`, `Sums`, `Text`, `Decimal`, `Utf8` | values, path order, stable sorting, sums over maps, text |
| `Planning`, `Limits` | comparison of two manifests; the oldest-first planner for a size limit |
| `StateTables`, `StateDb` | the folder database, as a value and as a class |
| `Devices`, `PeerServer`, `PeerCrypto` | one device, its server's handlers, the chunked file cipher |
| `SyncEngine`, `Agent`, `SyncLoop` | two devices: executor, planner, deletion, rounds, the loop |
| `Transfers`, `Safety`, `Runs`, `QueueListing`, `QueueMachine`, `QueueRows` | what one operation, one batch and one queue run do from agreeing devices; the queue as a state machine, and its rows column by column |
| `Effects`, `Arrivals`, `Deletions`, `Replacements` | what one operation, one deletion and one replacement do in any state |
| `Interleaving`, `Jobs`, `Invariants`, `Consents`, `Guarantees`, `Absence`, `Losses`, `Repairs` | both agents at work at once: the moves, and what holds after any sequence of them |
| `Reachability`, `Convergence`, `Rounds`, `FirstSync` | plans, queue runs and rounds in one piece: convergence |
| `Scanner`, `ScanTrees`, `ScanCompletion`, `ScanCounts`, `FolderScan` | the walk over a directory tree that feeds the index |
| `RelativePaths`, `PathCodec`, `HttpHead`, `Framing`, `Fragmentation`, `Wire`, `ClientRequests`, `PeerReader`, `ServerResponses` | paths, requests and responses on the wire |

`dafny verify dfyconfig.toml` checks everything.

## Main results

- **Convergence.** `FirstSync.FirstSyncUnites` for folders that were never synced;
  `Rounds.Converges`, `Rounds.OneRound` and `Rounds.CarriedIsInSync` from any agreeing
  state. Either device may make any of the rounds.
- **Nothing is lost without consent.** `Consents.NothingLostWithoutConsent` for any moves
  without resolutions, `Consents.EveryLossWasResolved` for any moves with some;
  `Runs.QueueRunGuarantees` for a queue run in one piece.
- **Done means equal.** `Arrivals.DoneMeansEqual` in any state and
  `Arrivals.DoneMeansEqualInAnyJob`, through the checks of client and server and through
  the cipher.
- **Index and disk.** `Devices.ScanAgrees`, `Invariants.AgreementOverRuns`,
  `Scanner.ScanInto`, `ScanTrees.CompleteWalkSeesTheDisk`, `ScanCompletion.WalkCompletes`,
  `FolderScan.ScanTree`.
- **Deletions and repairs.** `Absence.DeletedStaysDeleted` over any moves, and
  `Repairs.MovesRepair` with `Repairs.TakingRemote` and `Repairs.TakingLocal` between any two
  folders; `Deletions.PropagatedDeleteKeepsIndex`.
- **Queue and folder mode.** `QueueRows.RowsFollowManifests`, `QueueRows.ResolveExact`,
  `QueueMachine.RunKeepsInv`, `QueueMachine.RetryCountIsMoves`,
  `QueueMachine.EnqueueExact`, `Guarantees.OneWayFoldersHold`; `Invariants.EngineRunsAreQueueRuns`
  carries them over to the engine.
- **Limits.** `Invariants.FolderLimitOverRuns` at run time, `Limits.GreedyIsBest` in the planner.
- **Cipher.** `PeerCrypto.DecryptInvertsEncrypt` and `PeerCrypto.DecryptsOnlySentFiles`.
- **The wire.** `Fragmentation.FramingIsIndependent`, `ClientRequests.RequestReachesTheHandler`,
  `ServerResponses.FileReachesTheClient`; and which paths are accepted at all:
  `RelativePaths.ParseExact`, `PathCodec.DecodeExact`.

## Where the code does less than one would expect

Each of these is stated with a concrete case and with the exact condition.

- The scan trims the paths it indexes (crates/syncer-core/src/scanner.rs:83). A file
  called `"a "` is indexed as `"a"` and can then not be found. A completed walk
  indexes exactly the folder if and only if no file has white space at the ends of
  its path: `ScanTrees.UntidyNameIsMisindexed`, `ScanTrees.CompleteWalkSeesTheDisk`.
- One file, directory or other entry whose path does not parse, or whose name is not
  UTF-8, makes every scan of the folder fail: a name of white space only, say, or
  `" .syncer"`, `". "` and `".. "`. Without failing calls a scan completes if and only
  if there is no such entry: `ScanCompletion.WalkCompletes`,
  `ScanCompletion.OneNameStopsTheWalk`, `ScanCompletion.NamesThatDoNotParse`.
- A resolved download compares what it recorded with the index, not with the file
  (crates/syncer-agent/src/main.rs:1008-1027). An edit made after the run's scan is
  replaced although nobody agreed to lose it. The replaced file is the agreed one if
  and only if the index has its size and hash: `Losses.MovesLoseAnEdit`,
  `Replacements.ReplacedFileIsTheAgreedOne`.
- A resolved upload looks at the hash and size of the local record but not at its
  state (crates/syncer-agent/src/main.rs:875-897). When the local file was deleted
  outside Syncer, the peer's file is removed first and nothing replaces it:
  `Losses.MovesLoseTheLastCopy`, `Replacements.ResolvedUploadReplaces`.
- A propagated deletion unlinks the local file before it looks for the peer's endpoint
  and secret and before it asks the peer. When they are missing or the peer refuses,
  the local record stays available until the next scan:
  `Deletions.PropagatedDeleteCanLeaveAStaleRecord`, `Deletions.PropagatedDeleteKeepsIndex`.
- Whether bytes after a request's body are refused depends on how the stream was
  cut up, and so does whether a head near the limit is: `Fragmentation.TrailingBytesMatter`,
  `Fragmentation.FramingIsIndependent`.
- `RelativePath::parse` trims, so its results need not parse to themselves:
  `RelativePaths.ParsingIsNotIdempotent`, `RelativePaths.CanonicalParsesToItself`.
- Ciphertext lengths saturate at the top of the 64-bit range:
  `PeerCrypto.SaturatedLengthsCollide`, `PeerCrypto.EncryptedLenExact`.
- Both sides missing a path are planned as missing on the planning side, so the two
  plans do not mirror each other there: `Planning.PlanMirrors`.
- docs/syncer-design.md describes kept versions, a staging area and block-wise
  resumption. The code has none of them; the model follows the code.

## Assumptions

- BLAKE3 has no collisions: a digest is the symbolic value `Blake3(content)`, and
  text that is no content's digest is `Foreign`.
- The AEAD is a pair of functions that invert each other (`PeerCrypto.Aead.Correct`); for
  `PeerCrypto.DecryptsOnlySentFiles` it is also unforgeable on the received bytes
  (section 2 of RFC 5116). Nonce prefixes are arbitrary parameters, distinct for
  distinct files where it matters.
- Each scan, server request, executed operation and command of the user is one move.
  Edits and the moves of other runs and of the other device come between any two
  moves, but not inside one: an upload's DELETE and its PUT are one operation, and so
  are the unlinking and the DELETE of a propagated deletion.
- A file has fewer than 2^63 bytes, and no file's path is a directory prefix of
  another's, so that a folder is a map from paths to contents.
- Nothing but regular files lies at the paths of a folder's files and of the files it
  is to receive. A symbolic link, a pipe or a directory at such a path makes the
  program take the place for occupied, and that transfer fails in every round.
- Every path in a folder, and so in its index, parses to itself (`Devices.PlainNames`):
  it has no white space at its ends. The results about the engine require this of the
  starting state, every move keeps it, and outside edits are edits of such paths; and
  scans complete, so that directories and other entries of the folder have names that
  parse too (`ScanCompletion.EntriesParse`) and no call of a scan fails. Where this
  does not hold, the code does what the first two items of the previous section say.
- Manifests fit into the 4 MiB that the client reads of a response
  (crates/syncer-agent/src/peer_client.rs:22, 241-256), and request heads into the
  12289 bytes that arrive safely in every cut (`Fragmentation.FramingIsIndependent`);
  beyond either a round stops with an error.
- A read of a local file fills its buffer unless the file ends. Reads of a network
  stream deliver any number of bytes from one upwards.

## Model

| member | source | states |
|---|---|---|
| FirstSync.FirstSyncUnites | crates/syncer-agent/src/main.rs:715-861 | Two folders that were never synced, whose paths parse to themselves and which fit together: from the two empty databases, after ceil(one-sided paths / limit) rounds, each made by either device, and ever after, each device holds the union of both, its own file winning where both had one; so they end equal if and only if they did not conflict at the start |
| FirstSync.FirstScanQualifies | crates/syncer-core/src/scanner.rs:48-148 | After the first scan of two fresh folders, whose paths parse to themselves, every premise of convergence holds, and the backlog is the number of one-sided paths |
| Rounds.Converges | crates/syncer-agent/src/main.rs:742-861 | With room on both sides, a limit of at least one and bidirectional folders, and with either device making any of the rounds: after ceil(backlog / limit) rounds no transfer is planned, every file is on both devices unless one had lost it before, nothing was removed or changed, nothing came from nowhere, and no later round changes either folder |
| Rounds.OneTurn | crates/syncer-agent/src/main.rs:742-763 | A round made by either device keeps every invariant and shrinks the backlog by the limit, or to nothing |
| Rounds.OneRound | crates/syncer-agent/src/main.rs:742-861 | A round carries out exactly min(limit, backlog) operations, fails none, makes those files equal on both devices, shrinks the backlog by as many and removes or changes no file |
| Rounds.CarriedIsInSync | crates/syncer-core/src/planning.rs:228-272 | What a round has carried is InSync in the next plan, which is made after scanning both sides |
| Rounds.BacklogAfterRounds | crates/syncer-agent/src/main.rs:715-763 | After k rounds, whichever device made each of them, the backlog is the old one less k times the limit, or none |
| Rounds.RestingRounds | crates/syncer-agent/src/main.rs:715-763 | Once nothing is left to transfer, any number of further rounds leaves both folders as they are |
| Rounds.SettledPlan | crates/syncer-core/src/planning.rs:163-272 | In the final state the plan is InSync exactly on equal files, and otherwise names a conflict or the missing side |
| SyncLoop.Loop | crates/syncer-agent/src/main.rs:715-740 | The interval loop performs max(1, iterations) rounds unless one fails, so what is proved of rounds holds of it |
| Consents.NothingLostWithoutConsent | crates/syncer-agent/src/main.rs:742-1068 | Over any moves of both devices (scans, stages of any number of plans and queue runs at once, single executed operations, retries, edits, deletions), with nothing resolved: a file that its own device does not edit and nobody deletes through the agent is neither removed nor changed |
| Consents.EveryLossWasResolved | crates/syncer-agent/src/main.rs:742-1068 | Over any moves of both devices, resolutions included: a file that its own device does not edit and nobody deletes is still there, or it was named, by path, hash and size, by an executed operation that writes this very device, and that the user of the executing device had resolved before |
| Guarantees.RoundLosesNothing | crates/syncer-agent/src/main.rs:742-763 | A full round that nothing comes in between removes and changes no file, whatever was resolved before it |
| Consents.ConsentsOverRuns | crates/syncer-core/src/state_db.rs:554-606 | In every state that moves lead to, each row that carries consent, in either queue or still to be executed by a job, was resolved before by the user of its device |
| Runs.QueueRunGuarantees | crates/syncer-agent/src/main.rs:765-861 | Over one queue run in one piece every local file that disappears or changes was named, by its hash and size, in a resolved download of the run, and every file of the peer in a resolved upload; indexes agree with the disks afterwards; limits hold |
| Runs.BatchGuarantees | crates/syncer-agent/src/main.rs:784-855 | The same after every prefix of the executed operations |
| Arrivals.DoneMeansEqual | crates/syncer-agent/src/main.rs:784-1068 | In any state, agreeing or not, and with any manifest: an executed operation ends done or failed, and done means that both devices hold the same bytes at its path, with the hash and size it recorded of its source |
| Arrivals.DoneMeansEqualInAnyJob | crates/syncer-agent/src/main.rs:784-1068 | The same for the next operation of any job, with any number of other jobs under way |
| Arrivals.DoneMeansEqualInARun | crates/syncer-agent/src/main.rs:765-861 | The same at the moment each operation of any queue run is marked, whatever the indexes held before the run |
| Safety.ExecuteEffect | crates/syncer-agent/src/main.rs:784-855 | An operation never touches the side it reads from; the other side gets the source's file, keeps what it had, or loses only the file recorded in the operation; both limits hold |
| Safety.ExecuteMarks | crates/syncer-agent/src/main.rs:788-851 | Exactly the executed row is marked, done or failed with its error; no other row of either device changes |
| Transfers.DownloadFacts | crates/syncer-agent/src/main.rs:975-1068 | A download succeeds if and only if the manifest record passes the checks, the file fits, the place is free or holds the recorded file, and the peer still has it; the resulting index and disk; a failure changes nothing here but for the skip list when the file does not fit, and at most rescans the peer |
| Transfers.UploadFacts | crates/syncer-agent/src/main.rs:863-950 | An upload succeeds if and only if the local record passes the checks, its file is there, and the peer's place is free or cleared and roomy enough; what is left behind when it fails |
| Transfers.FetchExact | crates/syncer-agent/src/peer_client.rs:58-132 | A fetch yields the peer's bytes, and does so exactly when the peer has a file of the promised size |
| Transfers.SourceChecksExact | crates/syncer-agent/src/main.rs:863-1007 | Both executors accept exactly a record that is a file with a hash and has the recorded hash and size as far as they were recorded, and tell a missing record, one that is no file, and one without a hash from a changed one |
| Transfers.WrongLengthIsRefused | crates/syncer-agent/src/peer_client.rs:97-103 | A file whose size is not the promised one is refused by its announced length |
| PeerServer.PutExact | crates/syncer-agent/src/peer_server.rs:183-257 | PUT of an encrypted content is accepted if and only if hash, room and a free target are in order; then the file is there and indexed, otherwise nothing changes |
| PeerServer.DeleteExact | crates/syncer-agent/src/peer_server.rs:259-298 | DELETE removes the file if and only if it has the stated hash and size, and never another one |
| PeerServer.GetExact | crates/syncer-agent/src/peer_server.rs:155-181 | GET serves exactly the files on disk, encrypted under the named context with their true size and hash, and answers not found otherwise |
| PeerServer.PutOnlyEncrypted | crates/syncer-agent/src/peer_server.rs:183-257 | PUT accepts no body but the encryption of a content under the stated context |
| Replacements.ResolvedUploadReplaces | crates/syncer-agent/src/main.rs:875-942 | After an upload has removed the peer's file, the local one takes its place if and only if it exists and fits; otherwise the peer is left without the file |
| Replacements.DownloadInAnyState | crates/syncer-agent/src/main.rs:975-1068 | Whatever the index says of the disk and however old the manifest is: a download goes through if and only if the manifest record passes the checks, the file fits, the place is free or indexed as the recorded file, and the peer has the promised bytes; then those bytes are the file, and otherwise no file here changes |
| Replacements.ReplacedFileIsTheAgreedOne | crates/syncer-agent/src/main.rs:1008-1027 | In any state: a download that replaces a file replaces the one the user agreed to give up if and only if the index has that file's size and hash at that moment |
| Repairs.TakingRemote | crates/syncer-agent/src/main.rs:975-1068 | A conflict or a file missing here, planned between any two scanned folders and resolved towards the peer: the peer's file comes here if and only if the peer has it and it fits, and otherwise no file changes |
| Repairs.TakingLocal | crates/syncer-agent/src/main.rs:863-950 | A file missing at the peer, resolved towards this device: the local file goes there if and only if it is here and fits, and otherwise no file changes |
| Repairs.MovesRepair | crates/syncer-core/src/state_db.rs:554-606 | For any contents: the file is removed outside the agent on either side, the repair is planned and resolved towards the side that kept it, and the queue run leaves that side's bytes on both devices |
| Losses.MovesLoseTheLastCopy | crates/syncer-agent/src/main.rs:875-922 | For any two differing contents, from two scanned folders in conflict: the conflict is planned and resolved in favour of the local file, that file is removed outside the agent, and the executor removes the other one, so that neither device has it |
| Losses.MovesLoseAnEdit | crates/syncer-agent/src/main.rs:1008-1027 | For any contents: the conflict is resolved in favour of the peer's file, a queue run scans and lists it, the local file is edited, and the executor replaces the edit, which no row names |
| Deletions.PropagatedDeleteKeepsIndex | crates/syncer-agent/src/main.rs:614-689 | A propagated deletion leaves the local index in agreement with the disk if and only if there was no local file, or endpoint and secret were given and the peer held the same file |
| Deletions.PropagatedDeleteAt | crates/syncer-agent/src/main.rs:614-689 | The same for the one path, in any state where the index is right about it |
| Deletions.LocalOnlyDeleteAgrees | crates/syncer-agent/src/main.rs:645-653 | A deletion on this device alone leaves the index right about the path, and its record there as a missing one with its kind, size and hash; an unknown path is refused |
| Absence.DeletedStaysDeleted | crates/syncer-agent/src/main.rs:614-660 | Over any moves of both devices: a file deleted on one device alone, or removed there outside the agent, does not come back to that device, and its record keeps kind, size and hash, unless the path is edited there, its deletion propagated, or a row about it resolved |
| Deletions.PropagatedDeleteCanLeaveAStaleRecord | crates/syncer-agent/src/main.rs:614-689 | Two concrete cases where the index is stale after a refused deletion, and agrees again after a scan: the peer has no such file, or both have it and no peer was given |
| Invariants.AgreementOverRuns | crates/syncer-agent/src/main.rs:614-1068 | Path by path: index and disk of either device stay in agreement about a path through any moves of both devices but its own edits of that file and its own refused deletions of it, whatever happens to other files, on the other device or in any job |
| Invariants.DeviceAgreementOverRuns | crates/syncer-agent/src/main.rs:614-1068 | A whole device stays in agreement through moves that do this for every path |
| Invariants.FolderLimitOverRuns | crates/syncer-agent/src/main.rs:1079-1106 | Over any moves of both devices, its own edits apart, the indexed bytes of either device never exceed the larger of where they started and its folder limit; executed operations of one and handled uploads from the other in any order |
| Guarantees.OneWayFoldersHold | crates/syncer-core/src/planning.rs:141-154 | From an empty queue and without resolutions of its user, a one-way folder never holds a transfer of the forbidden direction, in its queue or in a job, and in every state so reached no move of its agent but an edit or deletion changes the protected folder |
| Devices.ScanAgrees | crates/syncer-core/src/scanner.rs:48-148 | After a complete scan of a folder whose paths parse to themselves, the available records are exactly the files on disk with their true size and hash, and every other record is missing |
| Devices.RescanKeeps | crates/syncer-core/src/scanner.rs:48-148 | Scanning an agreeing device changes no record but for generation and device |
| Devices.UpsertBytes | crates/syncer-core/src/state_db.rs:65-110 | Replacing a record changes the indexed bytes by the difference of the sizes |
| Invariants.ReachableInv | crates/syncer-agent/src/main.rs:614-1068 | Every state that moves of both devices lead to, between any two operations of their queue runs, keeps the queue invariant and sound names on both sides, the settings of both, and lawful transfers in every job |
| Interleaving.QueueRunIsMoves | crates/syncer-agent/src/main.rs:765-861 | A queue run in one piece is the special case of moves in which nothing comes in between its scan, its manifest, its listing and its operations |
| Interleaving.RoundIsMoves | crates/syncer-agent/src/main.rs:742-763 | So is a whole round: the moves of its plan, and those of its queue run unless the plan was refused |
| Jobs.ProceedFacts | crates/syncer-agent/src/main.rs:765-861 | The next stage of a plan or queue run, with manifests and listed operations of any age: its queue events, and what both folders keep |
| Effects.ExecuteHasEffect | crates/syncer-agent/src/main.rs:784-1068 | One executed operation in any state, agreeing or not, with any manifest: the executing device gains at most the one file, within its limit and over nothing but the recorded file; the peer loses at most the recorded file and gains at most the sent one; the row is booked done or failed with its error |
| Effects.EffectKeeps | crates/syncer-agent/src/main.rs:784-1106 | So both devices keep their settings, sound names, the agreement about every path, a covering index and the limit |
| Effects.UnconsentedLosesNothing | crates/syncer-agent/src/main.rs:863-1068 | In any state, an operation that nobody resolved removes and changes no file of either device |
| Effects.ConsentNamesTheLoss | crates/syncer-agent/src/main.rs:863-1068 | In any state, the file of the peer that an operation takes away is the one it names; the local one too, if the index is right about it |
| Invariants.EngineRunsAreQueueRuns | crates/syncer-agent/src/main.rs:614-861 | The queue of either device over any moves of both is a run of the queue state machine, without resolutions if its user made none |
| Runs.BatchIsQueueRun | crates/syncer-agent/src/main.rs:784-855 | Executing a batch is, for each operation in turn, exactly one start and one mark, each of a row that is still a pending transfer |
| QueueMachine.RunKeepsInv | crates/syncer-core/src/state_db.rs:516-606 | In every reachable state pending operations are transfers and blocked ones are not, ids are unique, and consent is visible in the row |
| QueueMachine.RetryCountIsMoves | crates/syncer-core/src/state_db.rs:516-552 | The retry count of a row is the number of times it went from failed to pending |
| QueueMachine.ModeBlockedStays | crates/syncer-core/src/state_db.rs:554-606 | A mode-blocked operation never becomes a transfer, and no transfer becomes mode-blocked |
| QueueMachine.RunObeysMode | crates/syncer-core/src/state_db.rs:333-379 | No sequence of plans, executions and retries in a fixed one-way mode queues a transfer of the other direction |
| QueueRows.EnqueueReplaces | crates/syncer-core/src/state_db.rs:333-379 | Enqueueing takes out exactly the pending and blocked rows of the peer and puts in exactly the rows of the plan; it is refused as a whole when an entry that calls for an operation has a size of 2^63 or more |
| QueueMachine.EnqueueExact | crates/syncer-core/src/state_db.rs:333-379 | The rows after enqueueing are, as a multiset, the kept ones and the rows of the plan |
| QueueRows.RowsFollowManifests | crates/syncer-core/src/state_db.rs:346-376 | Every column of every row of a plan, from the two manifests alone: the kind (a repair of the side that misses the file, a conflict of two that have it, a transfer from the only side that knows it, or blocked by the mode), status, reason, sizes and hashes of both sides, peer and time of the plan; there is a row for a path if and only if the sides do not hold the same file there |
| QueueMachine.PlanRowsMirrorEntries | crates/syncer-core/src/state_db.rs:346-376 | The rows are the images of the entries that are not in sync, one per path and in path order |
| QueueMachine.ConsentEndsWithTheNextPlan | crates/syncer-core/src/state_db.rs:335-344 | Pending and blocked rows of the peer carry no resolution and no retries after the next plan: a resolved operation survives only to the next execution |
| QueueMachine.RunKeepsNobodyConsented | crates/syncer-core/src/state_db.rs:554-606 | Consent enters a queue through a resolution only |
| QueueMachine.ConsentWasGiven | crates/syncer-core/src/state_db.rs:554-606 | Every row that carries consent after a run carried it before or was resolved in the run |
| QueueRows.ResolveExact | crates/syncer-core/src/state_db.rs:554-606 | A row can be resolved towards the peer if and only if it is blocked and a conflict or a file missing here, and towards this device if and only if it is blocked and a conflict or a file missing there; it becomes the pending transfer from that side with the sizes and hashes it had, and no other row changes |
| QueueRows.ResolveUnknown | crates/syncer-core/src/state_db.rs:554-560 | An id that no row has is refused as not found, and no other |
| QueueRows.RetryExact | crates/syncer-core/src/state_db.rs:516-547 | A retry makes each failed transfer of the named device, or of any, pending with one more retry, and leaves every other row alone, those of other devices included |
| Ordering.LexExact | crates/syncer-core/src/state_db.rs:455 | The path order: a prefix comes first, and otherwise the first characters that differ decide |
| QueueListing.ListPendingFacts | crates/syncer-core/src/state_db.rs:435-463 | A listing holds pending operations of the wanted kind and peer, each once, by the time of their plan and then by path; one that is left out comes no earlier than any listed one, and is left out only because the limit is reached |
| QueueListing.RunListFacts | crates/syncer-agent/src/main.rs:775-783 | Downloads and uploads of one run together are distinct pending transfers of the peer and stay within the limit |
| QueueListing.RunListOrder | crates/syncer-agent/src/main.rs:775-783 | Downloads come before uploads, each by the time of their plan and then by path; an upload is left out only when the limit is reached, a download only when downloads reach it |
| StateDb.CountsAddUp | crates/syncer-core/src/state_db.rs:657-703 | Status counts and kind counts each sum to the number of operations |
| StateDb.StateDatabase.UpsertFile | crates/syncer-core/src/state_db.rs:65-110 | Writes one record as available and clears its scan mark; a size or generation beyond 64 signed bits is refused without a change |
| StateDb.StateDatabase.MarkScanStarted | crates/syncer-core/src/state_db.rs:117-122 | Marks every record except skipped ones |
| StateDb.StateDatabase.FinalizeScan | crates/syncer-core/src/state_db.rs:129-141 | Marked records become missing, the others stay |
| StateDb.StateDatabase.ListMissingAfterScan | crates/syncer-core/src/state_db.rs:148-162 | Exactly the records in the missing state, with their paths, in path order |
| StateDb.StateDatabase.MarkFileDeletedLocally | crates/syncer-core/src/state_db.rs:189-202 | The named record becomes missing and keeps its other columns; every other record stays, and none goes |
| StateDb.StateDatabase.ForgetFile | crates/syncer-core/src/state_db.rs:209-220 | Only the named record goes |
| StateDb.StateDatabase.RecordSkippedFolderLimit | crates/syncer-core/src/state_db.rs:227-250 | Adds to the skip list and leaves the files table alone |
| StateDb.StateDatabase.Status | crates/syncer-core/src/state_db.rs:276-308 | Counts every record by its state, adds up all sizes, and counts the skip list as skipped |
| StateDb.StateDatabase.EnqueueSyncPlan | crates/syncer-core/src/state_db.rs:333-379 | The transaction: all old rows out and all new rows in, or no change at all |
| StateDb.StateDatabase.ListPendingOperations | crates/syncer-core/src/state_db.rs:435-463 | The oldest pending operations of a kind, up to the limit; a limit beyond 64 signed bits is refused |
| StateDb.StateDatabase.RetryFailed | crates/syncer-core/src/state_db.rs:516-547 | Exactly the failed transfers (of one device or of all) become pending with one more retry, and their number is returned |
| StateDb.StateDatabase.ResolveBlocked | crates/syncer-core/src/state_db.rs:554-606 | Only a blocked conflict or repair can be resolved, and only in a direction that fits it; every refusal leaves the queue alone |
| StateDb.StateDatabase.UpdateStatus | crates/syncer-core/src/state_db.rs:627-655 | Row by row: the named row gets the status and the error and keeps its other columns; no other row changes |
| StateDb.StateDatabase.MarkDone | crates/syncer-core/src/state_db.rs:470-472 | The named row is done and without an error, and is otherwise what it was; no other row changes |
| StateDb.StateDatabase.MarkStarted | crates/syncer-core/src/state_db.rs:480-494 | The named row has no error any more, and is otherwise what it was; no other row changes |
| StateDb.StateDatabase.MarkFailed | crates/syncer-core/src/state_db.rs:502-509 | The named row is failed with its error, and is otherwise what it was; no other row changes |
| StateDb.StateDatabase.Queue | crates/syncer-core/src/state_db.rs:657-703 | Every operation is counted once by status and once by kind |
| StateTables.ScanAt | crates/syncer-core/src/state_db.rs:117-141 | What a complete scan makes of any one path |
| StateTables.AbortedScanIsRepaired | crates/syncer-core/src/state_db.rs:117-141 | A scan that stopped after any of the files, followed by a complete one, leaves the index of the complete one alone |
| Agent.Folder.ScanFolder | crates/syncer-core/src/scanner.rs:48-148 | The index after visiting every file of the flat folder is that of a complete scan; the walk over the tree is shown to do the same by FolderScan.ScanTree |
| Agent.Folder.RemainingBytes | crates/syncer-agent/src/peer_server.rs:300-318 | The room left is the limit less all indexed bytes, and never negative |
| Agent.Folder.Publish | crates/syncer-agent/src/main.rs:1045-1068 | File and record change together, for this path only |
| Agent.Folder.ExportManifest | crates/syncer-agent/src/peer_server.rs:342-355 | The manifest is the index after a fresh scan |
| Agent.Folder.GetFile | crates/syncer-agent/src/peer_server.rs:155-181 | The response of a GET, errors included, and the rescanned device |
| Agent.Folder.PutFile | crates/syncer-agent/src/peer_server.rs:183-257 | The outcome of a PUT in the order of its checks, and the device after it |
| Agent.Folder.DeleteShared | crates/syncer-agent/src/peer_server.rs:259-298 | The outcome of a DELETE in the order of its checks, and the device after it |
| Agent.FetchFile | crates/syncer-agent/src/peer_client.rs:58-132 | The checks of the client on a fetched file |
| Agent.FetchAndPublish | crates/syncer-agent/src/main.rs:1008-1068 | Size and hash are checked, then a file in the way, then the file is published and the row marked |
| Agent.DownloadOperation | crates/syncer-agent/src/main.rs:975-1077 | Refines the value-level download: same world, same error |
| Agent.PutLocalFile | crates/syncer-agent/src/peer_client.rs:134-189 | Encrypts, compares the hash, sends, and compares the acknowledgement; the row is marked only when all agree |
| Agent.ClearRemoteTarget | crates/syncer-agent/src/main.rs:898-922 | The peer's file is deleted only when it is the recorded one |
| Agent.UploadOperation | crates/syncer-agent/src/main.rs:863-950 | Refines the value-level upload: same world, same error |
| Agent.ExecuteOperation | crates/syncer-agent/src/main.rs:784-855 | Start, attempt, and the mark on failure |
| Agent.RunQueue | crates/syncer-agent/src/main.rs:765-861 | Downloads first, uploads with what is left of the limit, completed and failed counted |
| Agent.PlanAndEnqueue | crates/syncer-agent/src/main.rs:952-973 | Both sides are scanned before planning, and the plan is enqueued |
| Agent.RunOnce | crates/syncer-agent/src/main.rs:742-763 | A failed enqueue ends the round before anything is executed |
| Agent.DeleteFile | crates/syncer-agent/src/main.rs:614-689 | The outcome and both devices after a local or propagated deletion |
| Planning.PlanManifestSyncForMode | crates/syncer-core/src/planning.rs:110-139 | The loop builds the plan value: its entries and its running summary |
| Planning.PlanCovers | crates/syncer-core/src/planning.rs:110-139 | One entry for every path of either side and for no other, in strictly increasing path order |
| Planning.PlanHolds | crates/syncer-core/src/planning.rs:163-272 | Every planned entry is the one its path calls for, and its path is on one of the sides |
| Planning.SummaryAddsUp | crates/syncer-core/src/planning.rs:294-316 | Each summary field counts the entries with its action, and the fields add up to the number of entries |
| Planning.PlanMirrors | crates/syncer-core/src/planning.rs:141-272 | Swapping the sides and flipping the mode mirrors an entry if and only if the path is not missing on both sides |
| Planning.PlansAlign | crates/syncer-core/src/planning.rs:110-139 | The plans of both sides list the same paths at the same positions |
| Limits.PlanTransfers | crates/syncer-core/src/limits.rs:87-113 | Accepted and skipped partition the input, each oldest first; the final use is the start plus the accepted sizes and stays within the limit |
| Limits.GreedyIsBest | crates/syncer-core/src/limits.rs:87-113 | No choice that stays within the limit takes an older transfer where the planned one first differs from it |
| Limits.SkippedDoNotFit | crates/syncer-core/src/limits.rs:87-113 | No skipped transfer would fit at the end |
| Limits.OldestFirstIsStable | crates/syncer-core/src/limits.rs:92-93 | Transfers are considered by age, and those of one age in their given order |
| Limits.ChosenPartition | crates/syncer-core/src/limits.rs:96-104 | Every transfer is either accepted or skipped, never both |
| Limits.New | crates/syncer-core/src/limits.rs:23-36 | Exactly the limits with a positive size and a warning threshold from 1 to 100 are built, with these values, and the size is checked first |
| Limits.WarningExact | crates/syncer-core/src/limits.rs:44-50 | The warning begins at the percentage of the limit, rounded down, or of the largest number where the product saturates |
| PeerCrypto.EncryptFile | crates/syncer-agent/src/peer_crypto.rs:34-89 | The encrypting loop, which goes by what it reads, produces the specified sequence of sealed chunks, or the size error |
| PeerCrypto.DecryptFile | crates/syncer-agent/src/peer_crypto.rs:91-148 | The decrypting loop, which goes by what remains, computes the specified inverse, errors included |
| PeerCrypto.DecryptInvertsEncrypt | crates/syncer-agent/src/peer_crypto.rs:34-148 | Decryption yields a content if and only if the input is what encryption makes of it under the same prefix and context |
| PeerCrypto.RoundTrip | crates/syncer-agent/src/peer_crypto.rs:34-148 | Every content of any length comes back with its whole-file hash, from a ciphertext of exactly the announced length |
| PeerCrypto.DecryptsOnlySentFiles | crates/syncer-agent/src/peer_crypto.rs:104-148 | With an unforgeable cipher, what decrypts is one sent file, whole and in order, under the same prefix, direction, path, hash and size |
| PeerCrypto.SomethingIsReceived | crates/syncer-agent/src/peer_crypto.rs:104-148 | The assumptions of that statement can be met: for every prefix and every one-byte file there are a cipher and a received file that satisfy them all, and the file decrypts |
| PeerCrypto.ChunkNonceInjective | crates/syncer-agent/src/peer_crypto.rs:166-171 | Two chunk nonces are equal only for equal prefixes and indexes |
| PeerCrypto.ChunkAadInjective | crates/syncer-agent/src/peer_crypto.rs:181-190 | Two associated data are equal only for equal contexts and indexes |
| PeerCrypto.EncryptedLenExact | crates/syncer-agent/src/peer_crypto.rs:30-32 | The length is exact if and only if it fits in 64 bits |
| PeerCrypto.TwoChunks | crates/syncer-agent/src/peer_crypto.rs:46-85 | A file of 65537 bytes is sent as 65569: 65536 with their tag, then one with its own, numbered 0 and 1 |
| PeerCrypto.AadLines | crates/syncer-agent/src/peer_crypto.rs:181-190 | The associated data of a chunk are the five lines direction, path, hash, size and number |
| PeerCrypto.NonceBytes | crates/syncer-agent/src/peer_crypto.rs:166-171 | A nonce is the prefix and the number of the chunk in eight bytes, the most significant first |
| PeerCrypto.BoundaryLengths | crates/syncer-agent/src/peer_crypto.rs:30-32 | The lengths at the chunk boundaries in numbers; an empty file is one tag |
| PeerCrypto.LengthAdmitsOneSize | crates/syncer-agent/src/peer_crypto.rs:173-179 | Below saturation the length is strictly increasing, so a length check admits one plaintext size |
| PeerCrypto.SaturatedLengthsCollide | crates/syncer-agent/src/peer_crypto.rs:30-32 | At the top of the range two sizes share a length |
| RelativePaths.ParseRelativePath | crates/syncer-core/src/manifest.rs:19-55 | The component loop computes the specified parse, each refusal included |
| RelativePaths.ParseExact | crates/syncer-core/src/manifest.rs:19-54 | A value parses if and only if, trimmed, it is neither empty nor absolute, no component is "..", and the first component that is not empty or a dot is not the metadata directory; the components of the result are those of the value without the empty ones and the dots, in order |
| RelativePaths.ParseErrors | crates/syncer-core/src/manifest.rs:19-54 | Which of the four errors a value gets that does not parse |
| Text.TrimExact | crates/syncer-core/src/manifest.rs:20 | Trimming takes white space off both ends, as much as there is, and nothing else |
| Text.WhitespaceExact | crates/syncer-core/src/manifest.rs:20 | The twenty-five white space characters, one by one |
| RelativePaths.ParsedIsCanonical | crates/syncer-core/src/manifest.rs:19-55 | Whatever parses has no empty, dot or dot-dot component, is not absolute and lies outside the metadata directory |
| RelativePaths.CanonicalParsesToItself | crates/syncer-core/src/manifest.rs:19-55 | A canonical path parses to itself if and only if it has no white space at its ends |
| RelativePaths.ParsingIsNotIdempotent | crates/syncer-core/src/manifest.rs:20 | A parsed path that parses to another one |
| RelativePaths.PlainIsTidy | crates/syncer-core/src/manifest.rs:19-55 | The paths that parse to themselves are exactly the canonical ones without white space at their ends |
| PathCodec.EncodePath | crates/syncer-agent/src/path_codec.rs:6-19 | The loop percent-encodes every byte that is not unreserved or a separator |
| PathCodec.DecodePath | crates/syncer-agent/src/path_codec.rs:21-50 | The index loop decodes, with the errors for bad escapes, bad UTF-8 and bad paths |
| PathCodec.DecodeExact | crates/syncer-agent/src/path_codec.rs:21-50 | A request path decodes to what the text it stands for parses to, and fails as that fails; a text with a ".." component does not decode, however it is escaped |
| PathCodec.DecodesIfWellEscaped | crates/syncer-agent/src/path_codec.rs:25-46 | The escapes decode if and only if each percent sign that is met stands before two hexadecimal digits |
| PathCodec.HexExact | crates/syncer-agent/src/path_codec.rs:52-59 | A byte is a digit if and only if it is one of the sixteen in either case, and then has its value |
| PathCodec.EncodesToItself | crates/syncer-agent/src/path_codec.rs:6-19 | A path is sent as it is if and only if it is made of unreserved characters and separators, and is longer otherwise |
| PathCodec.EscapedCharacters | crates/syncer-agent/src/path_codec.rs:12-15 | Other characters are escaped byte by byte with upper-case digits |
| PathCodec.EncodedSays | crates/syncer-agent/src/path_codec.rs:6-50 | An encoded text stands for that text |
| PathCodec.DecodedSays | crates/syncer-agent/src/path_codec.rs:21-50 | Whatever decodes stands for some text |
| PathCodec.BytesRoundTrip | crates/syncer-agent/src/path_codec.rs:6-50 | The byte codec round-trips every byte string |
| PathCodec.PathRoundTrip | crates/syncer-agent/src/path_codec.rs:6-50 | An encoded canonical path decodes to itself if and only if it has no white space at its ends |
| Utf8.RoundTrip | crates/syncer-agent/src/path_codec.rs:48 | UTF-8 decoding undoes encoding, for every text |
| Utf8.DecodeExact | crates/syncer-agent/src/path_codec.rs:48 | Bytes decode to a text if and only if they are its encoding, so that no overlong or truncated form is accepted |
| Utf8.FourLengths | crates/syncer-agent/src/path_codec.rs:9 | One character of each length in bytes |
| Framing.ReadRequest | crates/syncer-agent/src/peer_server.rs:357-381 | The head loop over an arbitrarily cut stream, with its size limit |
| Framing.ParseRequest | crates/syncer-agent/src/peer_server.rs:383-428 | What becomes of a buffered head, whatever pieces the rest arrives in |
| Framing.ReadMemoryBody | crates/syncer-agent/src/peer_server.rs:434-463 | The body is the prefix and the next bytes of the stream, exactly as many as announced, for every way of cutting the stream |
| Framing.MemoryLimit | crates/syncer-agent/src/peer_server.rs:434-446 | A body that is not spooled may have a mebibyte and no more |
| Framing.ReadFileBody | crates/syncer-agent/src/peer_server.rs:465-540 | The same for a body that is spooled to a file, without the memory limit |
| Framing.EndInPrefix | crates/syncer-agent/src/peer_server.rs:553-555 | A prefix shows the end of the head exactly when it is long enough to hold it |
| Fragmentation.FramingIsIndependent | crates/syncer-agent/src/peer_server.rs:357-540 | Every way of cutting a well framed request gives the same result if and only if a read that meets the end of the head cannot overflow the head buffer, or the request is too large anyway |
| Fragmentation.TrailingBytesMatter | crates/syncer-agent/src/peer_server.rs:447-449 | Bytes after the body are harmless in every cut if and only if there are none or the body is at least 4095 bytes long |
| HttpHead.ParseHeaders | crates/syncer-agent/src/peer_server.rs:542-551 | The field loop: lines without a colon add nothing, a repeated name replaces |
| HttpHead.FieldExact | crates/syncer-agent/src/peer_server.rs:542-551 | The first colon of a line separates name and value; a line without one adds nothing |
| HttpHead.LineEnds | crates/syncer-agent/src/peer_server.rs:383-428 | A line ends at a line feed with the carriage return before it; a last line feed adds no empty line |
| HttpHead.LowerExact | crates/syncer-agent/src/peer_server.rs:542-551 | Of a field name only ASCII capitals change, each into its small letter |
| HttpHead.LengthExact | crates/syncer-agent/src/peer_server.rs:405-413 | A length that is absent or no number counts as none |
| HttpHead.SpoolsExact | crates/syncer-agent/src/peer_server.rs:430-432 | Only an upload of a file with a body is spooled |
| HttpHead.RoutedExact | crates/syncer-agent/src/peer_server.rs:94-135 | A request is routed to what the text of its path parses to, and is invalid if that has a ".." component, however it is escaped |
| HttpHead.StripExact | crates/syncer-agent/src/peer_server.rs:94-135 | The file prefix comes off the path as often as it is there |
| Wire.HeadSurvives | crates/syncer-agent/src/peer_client.rs:258-299 | The head a client writes is parsed back into the same verb, target and fields |
| Wire.QueryIsDropped | crates/syncer-agent/src/peer_server.rs:383-428 | A query after the path is dropped |
| Wire.TargetRoutes | crates/syncer-agent/src/peer_server.rs:94-135 | The target of a file request has no white space or question mark and is routed to the same path if and only if that path has no white space at its ends |
| Wire.RequestSurvivesTheWire | crates/syncer-agent/src/peer_server.rs:357-540 | A whole request with any plain header fields, delivered in any pieces, is read with the same verb, fields and body, and its path is routed to itself if and only if it has no white space at its ends |
| ClientRequests.RequestReachesTheHandler | crates/syncer-agent/src/peer_server.rs:94-150 | A GET, DELETE or PUT for a file, written header by header as the client writes it and delivered in any pieces, reaches the handler as the same request with the same path, hash, size, nonce and body |
| ClientRequests.RoutedWasWritten | crates/syncer-agent/src/peer_server.rs:94-150 | Conversely, a request reaches a handler only with the verb and the header fields that are written for it, and an upload only with a body of its own |
| Decimal.ParseOfText | crates/syncer-agent/src/peer_server.rs:410-413 | A printed length is read back, up to the width of the integer |
| Decimal.ParseExact | crates/syncer-agent/src/peer_server.rs:410-413 | A text is read as a number if and only if it is the printed number within the width, after zeros or a plus sign |
| PeerReader.ReadResponseHead | crates/syncer-agent/src/peer_client.rs:346-384 | The head of a response is the bytes up to its first blank line in every cut, and nothing after them is consumed |
| PeerReader.HeadLimit | crates/syncer-agent/src/peer_client.rs:346-358 | The head of a response may have 16 KiB with its blank line and no more; a shorter stream without one is an early end |
| PeerReader.CopyExact | crates/syncer-agent/src/peer_client.rs:395-413 | Exactly the announced bytes are copied in every cut; a stream that ends early is an error |
| ServerResponses.FileReachesTheClient | crates/syncer-agent/src/peer_server.rs:635-698 | The response with an encrypted file, written header by header and delivered in any pieces, is read with status 200, the length of its body, and its algorithm, nonce and hash; the body is what follows the head |
| ServerResponses.ResponseSurvives | crates/syncer-agent/src/peer_client.rs:346-384 | Any response with plain fields is read with its status, length and fields, up to its blank line and no further |
| Scanner.ScanInto | crates/syncer-core/src/scanner.rs:48-148 | The walk ends, succeeds if and only if no call fails (opening a directory, asking for any of its entries, looking at or reading a file) and every path parses, then has seen and counted everything once and left the index of a complete scan; otherwise it leaves what it had indexed |
| ScanCounts.CompletedWalkCounts | crates/syncer-core/src/scanner.rs:96-105 | A completed walk reports as many directories, and as many entries that are neither directory nor file, as the folder has outside its metadata directory |
| ScanCounts.CompletedWalkWeighs | crates/syncer-core/src/scanner.rs:107-140 | A completed walk over a folder with tidy file paths reports the sum of its file sizes |
| FolderScan.ScanTree | crates/syncer-core/src/scanner.rs:48-148 | Walking the tree of an agent's folder leaves exactly the index that the flat scan leaves, and reports its files, directories, other entries and bytes; when no call fails it succeeds if and only if every entry outside the metadata directory has a UTF-8 name and a path that parses; after a failed walk the next scan gives what it would have given without it |
| ScanTrees.EachFileOnce | crates/syncer-core/src/scanner.rs:53-137 | Each file of the tree occurs once, under the path it is looked up by, and nothing else does |
| ScanTrees.WalkParses | crates/syncer-core/src/scanner.rs:77-83 | Whatever the walk indexes is a file whose path parses to the indexed one, and without a failure no file is left out |
| ScanTrees.CompleteWalkSeesTheDisk | crates/syncer-core/src/scanner.rs:48-148 | For every tree with component names: what a completed walk has indexed is exactly the folder, as looked up name by name, if and only if no file outside the metadata directory has white space at the ends of its path; then the file counter is the number of files |
| ScanTrees.WalkIsScan | crates/syncer-core/src/scanner.rs:48-148 | For such a folder the completed walk leaves the tables of the flat scan, and every path parses to itself |
| ScanTrees.UntidyNameIsMisindexed | crates/syncer-core/src/scanner.rs:83 | A file called "a " is indexed as "a", where there is none |
| ScanCompletion.WalkCompletes | crates/syncer-core/src/scanner.rs:60-140 | For every tree with component names: a walk in which no call fails completes if and only if every file, directory and other entry outside the metadata directory has a UTF-8 name and a path that parses, and no walk completes otherwise |
| ScanCompletion.TidyEntriesParse | crates/syncer-core/src/manifest.rs:19-54 | Entries with UTF-8 names and no white space at the ends of their paths are enough for that |
| ScanCompletion.OneNameStopsTheWalk | crates/syncer-core/src/scanner.rs:83 | One entry anywhere in the folder whose path does not parse makes every walk fail |
| ScanCompletion.NamesThatDoNotParse | crates/syncer-core/src/manifest.rs:19-54 | A name at the top of the folder does not parse if and only if trimming leaves nothing, one or two dots, or the metadata name |
| ScanTrees.AbortedWalkIsRepaired | crates/syncer-core/src/scanner.rs:48-148 | A walk that failed leaves no trace once a walk of the same folder completes, whichever calls failed |
| ScanTrees.FailedWalkIsRepaired | crates/syncer-core/src/scanner.rs:48-148 | On a device: a failed walk does not change what the next scan makes of it |

## Left out

- Invariants.FolderLimitOverRuns: excludes the device's own outside edits and starts from an index that covers the folder, because a scan indexes whatever the user put there.
- Rounds.Converges: requires room on both sides and no outside edits, failures or resolutions during the rounds; without them files remain blocked or unplanned by design.
- Scanner.ScanInto: takes the tree as a value, so that entries do not change during the walk; a directory cannot vanish between its listing and the walk into it except as a failed call.
- Agent.Folder.ScanFolder: visits the files of a flat folder and parses no path; the walk with its parsing is Scanner.ScanInto, and FolderScan.ScanTree shows that both leave the same index where every path parses to itself.
- FirstSync.FirstSyncUnites: folders for which the scan itself fails or misindexes (ScanCompletion.WalkCompletes, ScanTrees.CompleteWalkSeesTheDisk), and wanted paths occupied by something that is no regular file.
- Guarantees.RoundLosesNothing: speaks of a round that nothing comes in between; what can be lost when something does is the subject of Consents.EveryLossWasResolved.
- Absence.DeletedStaysDeleted: assumes that no transfer that would restore the file was queued before, and no job is under way when it goes; such a transfer would be executed.
- Repairs.TakingLocal: the other direction of a conflict, which removes the peer's file first, is Replacements.ResolvedUploadReplaces.
- Consents.EveryLossWasResolved: excludes the device's own edits of the file, because what is lost with them is what Losses.MovesLoseAnEdit and Replacements.ReplacedFileIsTheAgreedOne say.
- Truncated manifests: a manifest beyond the response limit ends the round with an error before anything is planned.
- SyncLoop.Loop: the endless form without a number of iterations, and the sleep between rounds.
- SQLite, sqlx, migrations and the parsing of stored text: tables are maps and sequences, and the enqueue transaction is all or nothing. Manifests have one record per path, as the primary key guarantees.
- Storage failures (a full disk, a rejected query, a failed rename): only the failures that the protocol itself produces are modelled, and those of the calls of the scan.
- Temporary `.enc`, download and request files that remain after a broken connection.
- Network failures and timeouts inside a request; a request either runs to its end or is refused.
- Request signing, pairing tickets, the peer store, device profiles and JSON bodies.
- The inside of XChaCha20-Poly1305, BLAKE3, SHA-256 and key derivation, and the body hash of a request.
- Timestamps, except the order by age of queued operations and pending transfers; ids are consecutive numbers, and one enqueue has one time.
- `classify_file_presence` and the plan without a folder mode, which is the bidirectional one.
- Command line, output, status text of responses, and the desktop and Android shells.
- Counters of rounds, results and files are unbounded here; the program's saturate at 64 bits.
- Features of docs/syncer-design.md that the code does not have: versions, staging, block-wise resumption, locks.
