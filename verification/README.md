# spoold, modelled and proved in Dafny

spoold accepts outbound HTTP deliveries, keeps them in an append-only journal and
performs them with a pool of workers. This project models the parts that have to be
right for a delivery never to be lost or confused with another:

* **the journal store** (`internal/store/store.go`): three maps in memory that must
  agree with replay of one file, mutations that append, synchronise, show and only then
  answer, a persistence failure that sticks, and online compaction by way of a temporary
  file, a rename and a directory synchronisation;
* **the lifecycle** of a delivery under leases, retries, cancellation and pruning;
* **the worker pool** (`internal/worker/worker.go`): admission per origin, the outcome of
  an attempt, the wait before the next one;
* **the fingerprint** behind idempotency (`internal/delivery/delivery.go`);
* **maintenance** (`internal/compactor/compactor.go`).

## How it is laid out

`Stores.dfy`, `Pools.dfy` and `Compactors.dfy` hold the classes: real fields, methods
with the source's branches. What the file system makes of each call that can fail is a
parameter (`AppendIO`, `CompactIO`, `OpenIO`, `RoundIO`), so the contracts say exactly when
an operation succeeds. A `Store` also keeps, as ghost state, the machine state it was
opened in and the list of machine steps it has taken since. Its `Valid()` says that these
steps, all of them steps of a running process, lead exactly to its fields.
`Guarantees.dfy` draws the consequences: a store that is opened over a terminated journal
with a durable name is in a state that a safe run from nothing reaches, every public
method keeps it so, and what is proved of all such runs then holds of it.

`Machine.dfy` splits each operation into its disk effects. A file is its bytes and how
many of them are synchronised; the journal's name is the list of files it may durably
denote. A power loss keeps the synchronised bytes and any prefix of the others, and any
one of the names; a kill takes the process and leaves the disk as it is. `Trails.dfy` says
what a file with unsynchronised bytes is bound to hold, `MachineProofs.dfy` holds the
invariant of every step, and `Recovery.dfy` and `Appends.dfy` what follows from it:
the runs they speak of append only to a terminated journal whose name is durable, and
`Appends.AppendDurableIffSafe` shows that an append to any other is not safe.
`Refinement.dfy` reads every such run, kills and crashes and all, as a run of the
lifecycle in `Lifecycle.dfy`: an answer is its mutation, a crash is a restart, perhaps
after a front part of the one mutation that had no answer then, and nothing else is
added. `PoolRuns.dfy` does the same for every interleaving of N workers with the API,
maintenance and reboots, and `PoolCalls.dfy` shows that each call of a pool's methods,
and of its store's, is a move of such a run, so that what is proved of the runs holds of
the object. `Witnesses.dfy` has runs from nothing to the states in question.

`Journal.dfy` and `Snapshots.dfy` treat replay and the compacted snapshot;
`Selections.dfy` what a claim takes and a prune removes; `Requests.dfy` and `Json.dfy`
normalisation and the two preimage formats, and `JsonGrammar.dfy` the grammar by which a
body is JSON; `Bodies.dfy` the two ways a body is written;
`Backoffs.dfy` and `Amortised.dfy` the arithmetic; `Idempotency.dfy` what a repeated
creation is answered. `MiniCodec.dfy` gives a record format that meets every law asked of
the journal's codec.

`dafny verify dfyconfig.toml` checks the project.

## Where the code and its documentation part

* `docs/design.md:45-47` says a final partial line is ignored and complete records that
  are corrupt fail startup. Both hold, but the partial line is not removed and the file
  is reopened for appending, so the first append after such a start joins it, is
  acknowledged, and the next start fails. `Appends.AppendReadableIffClean` gives the
  exact condition: the journal can be read after the append if and only if it ended in a
  newline before it. `Witnesses.TornStart` reaches the failing case, and
  `Recovery.AdoptRestores` shows that a compaction before the first append cures it, and
  `Recovery.CompactionSaves` that one after it, in the same process, saves what was
  acknowledged.
* `docs/design.md:111-114` says a late worker cannot overwrite a newer claim. The fence is
  the attempt number, and a manual retry sets it back to 0. Within one retry cycle the
  sentence is true. Across a retry a worker from before it can be accepted:
  `Waiting.StaleHolderIsAccepted` is such a run, and
  `Lifecycle.AcceptedHolderIsCurrentIffSameCycle` says when an accepted holder is the
  current one: if and only if no retry came between. `PoolRuns.AcceptedReportIsCurrent` is
  the same for the workers of a pool.
* `docs/design.md:6-7` and `docs/design.md:92-99` promise durability before success. A
  start synchronises the directory only when it finds a temporary file to remove or makes
  the journal itself. So if the process is killed between the rename of a compaction and
  the directory synchronisation, or between the creation of the journal and its directory
  synchronisation, the next process acknowledges mutations under a name that a power loss
  can still take back (`Witnesses.UnnamedStart`, `Witnesses.UncreatedStart`).
  `Appends.AppendDurableIffSafe` and `Appends.KillDurableIffSafe` give the exact
  conditions, for every phase in which the process may be killed.
* The same promise fails a second way: a process killed between write and synchronisation
  leaves a record that the next one loads and answers a known key with
  (`internal/store/store.go:170-179`), without appending anything. Such an answer lasts if
  and only if it was durable already (`Appends.VisibleDurableIff`).
* `docs/design.md:102-104` bounds size-based compaction by the record count. The counts
  are read before the compaction takes the store's lock, so mutations can get between.
  A redundancy compaction then writes more than it removes if and only if the trigger no
  longer holds when the snapshot is put in place (`Amortised.CompactionCostsIff`), the
  bound holds for every run without such a compaction (`Amortised.PlainBound`),
  `Amortised.RaceCosts` is a run in which it fails, and `Amortised.RedundancyIsPaidFor` is
  a bound for all runs.
* The waits of successive retries never shrink while the delay can still double. At the
  maximum the jitter can shorten them; `Backoffs.NeverShorterIff` says exactly when.

## What is assumed

* `newID` never returns an ID twice, and SHA-256 has no collisions. The first is
  `FreshIds`, the second a hypothesis of `FingerprintProofs.HashIdentifiesRequest`.
* `encoding/json` on journal records: decoding what was encoded gives it back up to the
  canonical form of a JSON body and of the error text, no encoding holds a newline, no
  strict prefix of a record decodes, and neither does a record that follows a part of
  another on the same line (`Journal.Lawful`). Strings are valid UTF-8. A `char` stands
  for a byte.
* A URL that `net/url` parses has no control bytes.
* Integers are unbounded except for durations, which are 64-bit. Times are integers, 0
  being the zero time.
* One process owns the journal.

## Model

| member | source | states |
|---|---|---|
| Recovery.CrashRefinement | internal/store/store.go:574-589 | for every run that appends safely and in which no process is killed, power lost at any step leaves a disk whose replay succeeds with the acknowledged state, or that state and a front part of the one mutation without an answer |
| Refinement.CrashRefinementFromBlank | internal/store/store.go:80-144 | from a machine without a journal, over any number of starts, kills and crashes: the journal replays, to maps that the lifecycle run explains, with exactly the acknowledged mutations |
| Recovery.AcknowledgedIsDurable | internal/store/store.go:574-589 | when a mutation is acknowledged, after whatever kills, the open file is synchronised under a durable name, and every power loss recovers the new state |
| MachineProofs.CrashSafe | internal/store/store.go:630-692 | in every state of the invariant, whichever name and prefixes survive, the file replays to the base maps and the first j of the records that may follow them |
| MachineProofs.RunKeeps | internal/store/store.go:437-525 | every micro-step of appending, failing, compacting, crashing, being killed and starting keeps the invariant, including live deliveries <= records |
| Recovery.FailureSticks | internal/store/store.go:712-717 | after a persistence failure and until a compaction passes its directory synchronisation or the process ends: no append, no acknowledgement, the maps and every named file unchanged |
| Recovery.NamedFilesSurviveFailure | internal/store/store.go:483-523 | no file the journal's name may denote changes while persistence has failed |
| Recovery.RepairRestores | internal/store/store.go:490-525 | the compaction that ends a failure leaves one durable, synchronised, terminated file that replays to exactly the maps, one record a delivery |
| Recovery.AdoptRestores | internal/store/store.go:483-525 | so does every adopted compaction, also that of a process started over a torn journal or under a name that is not durable |
| Recovery.CompactionSaves | internal/store/store.go:437-525 | so does one after any steps of a process, appends to a torn journal or under a name that is not durable among them: what these acknowledged is then durable |
| Appends.AppendReadableIffClean | internal/store/store.go:602-671 | after an acknowledged append the journal can be replayed if and only if it ended in a newline before; then it recovers the new state and ends in a newline |
| Appends.AppendDurableIffSafe | internal/store/store.go:574-589 | an acknowledged append survives every power loss if and only if the journal ended in a newline and no other name for it, and no absence of one, could be durable |
| Appends.OpenKeepsTail | internal/store/store.go:630-671 | starting on a torn journal loads the right state and leaves the disk as it was |
| Guarantees.ServedSafely | internal/store/store.go:117 | from a state in which the store may append safely, whatever the process does next appends safely and keeps it so |
| Appends.KillDurableIffSafe | internal/store/store.go:743-767 | after a kill in any phase the next process can start, and what it acknowledges survives every power loss if and only if the kill left a terminated journal and a durable name or a temporary |
| Appends.VisibleDurableIff | internal/store/store.go:170-179 | after a kill in any phase, what the next process loads survives every power loss if and only if under every possible name the synchronised bytes replay to it and the others hold no whole record |
| Appends.OtherNameLoses | internal/store/store.go:92-119 | an append under a name that is not durable can be lost |
| Appends.TornTailLoses | internal/store/store.go:638-650 | so can one that joins an unterminated line |
| Witnesses.TornStart | internal/store/store.go:638-650 | a run from nothing to a started process over a journal that ends inside a line |
| Witnesses.UnnamedStart | internal/store/store.go:483-500 | one to a process started under a compaction's name that is not durable |
| Witnesses.UncreatedStart | internal/store/store.go:110-126 | one to a process started on a journal that may vanish |
| Refinement.RunIsExplained | internal/store/store.go:80-692 | every run of the machine that appends safely is read, label by label, as a lifecycle run that ends in its maps: an answer is its mutation, a crash a restart after at most a front part of the mutation then without an answer, anything else nothing |
| Refinement.ReadingTells | internal/store/store.go:574-589 | so the callers are told exactly the same in the same order, and each crash leaves at most one mutation without an answer behind |
| Guarantees.StoreSurvivesPowerLoss | internal/store/store.go:574-589 | power lost between any two calls of a store leaves maps that its run explains, with exactly the mutations acknowledged |
| Guarantees.SettledStoreLosesNothing | internal/store/store.go:574-589 | a sound store over a synchronised file recovers exactly its maps |
| Guarantees.CallsKeepReached | internal/store/store.go:160-525 | a call that leaves the store valid and only adds its own steps keeps what the guarantees ask for |
| Guarantees.IssueReport | internal/store/store.go:271-308 | as Succeed and Fail do |
| Guarantees.IssueCommand | internal/store/store.go:310-353 | as Cancel and Retry do |
| Guarantees.IssueCreate | internal/store/store.go:160-186 | as Create does |
| Guarantees.IssueBatch | internal/store/store.go:222-435 | as ClaimDueMatching and PruneTerminal do |
| Guarantees.IssueCompact | internal/store/store.go:437-525 | as Compact and Close do |
| Guarantees.IssueRepair | internal/store/store.go:437-525 | a compaction that works brings a store started over a torn journal, or under a name that is not durable, to where the guarantees hold |
| Guarantees.IssueSave | internal/store/store.go:437-525 | and whatever a store's appends were, one that works leaves its maps durable and the store able to append safely |
| Guarantees.Start | internal/store/store.go:80-144 | Open brings a store there over a durable terminated journal or over none |
| Guarantees.StoreIsConsistent | internal/store/store.go:546-564 | its maps agree with each other and with the records count, and a sound store's file is terminated, has the one durable name and replays to them |
| Witnesses.FirstDelivery | internal/store/store.go:80-186 | under any codec an empty machine starts, makes its journal and acknowledges a delivery |
| JournalProofs.ReplayConcat | internal/store/store.go:630-671 | replay of a terminated file followed by more is replay of the two in turn |
| JournalProofs.ReplayCutBatch | internal/store/store.go:637-651 | replay of a batch cut anywhere applies exactly the records that are whole, the last with or without its newline |
| JournalProofs.JoinedAppendIsRefused | internal/store/store.go:652-663 | records appended after an unterminated tail make replay refuse the file |
| JournalProofs.CleanIffNoTail | internal/store/store.go:638-650 | a file is terminated if and only if nothing follows its last newline |
| JournalProofs.ApplyAllCanon | internal/store/store.go:673-692 | applying journaled records to replayed maps is the canonical form of applying the originals |
| JournalProofs.ReplayIndexed | internal/store/store.go:673-692 | whatever the bytes, the maps replay loads are filed under the deliveries' own IDs |
| JournalProofs.ReplayCount | internal/store/store.go:630-671 | replay counts at least one record for each delivery it leaves |
| JournalProofs.PutIsRead | internal/store/store.go:673-692 | a record of version 1 or 2 with a delivery that has an ID, as a line or as a last line without a newline, files exactly that delivery in canonical form, its hash and its key, whatever was there before |
| JournalProofs.OnePutIsRead | docs/design.md:58 | so a journal of one record of either version loads that delivery |
| JournalProofs.TombstoneIsRead | internal/store/store.go:677-686 | a tombstone of version 2 removes the delivery, its hash, and its key when that leads to it |
| JournalProofs.OthersAreRefused | internal/store/store.go:673-692 | any other version, a tombstone of version 1, both parts together, neither, and a delivery without an ID are refused |
| JournalProofs.OnlyTornTailIsIgnored | internal/store/store.go:638-662 | a line that does not decode is refused, unless it is the last and has no newline |
| Snapshots.SnapshotRebuilds | internal/store/store.go:473-482 | the snapshot in any order of IDs rebuilds items, hashes and keyToID, with one record a delivery |
| Snapshots.LosslessCompaction | internal/store/store.go:473-482 | written, replayed and written again, it loads the canonical maps and is the same bytes |
| EventProofs.EffectConsistent | internal/store/store.go:546-564 | every mutation keeps keyToID the exact inverse of the live non-empty keys |
| EventProofs.DeleteAll | internal/store/store.go:554-564 | tombstones remove their deliveries and no other |
| EventProofs.PartialEffect | internal/store/store.go:414-431 | a front part of a mutation's records is a mutation: a prune of fewer deliveries |
| EventProofs.EffectOnSubject | internal/store/store.go:236-353 | after a transition the subject is exactly the delivery the transition makes, with its fingerprint kept |
| EventProofs.EffectFrame | internal/store/store.go:546-564 | a mutation changes no other delivery and no other fingerprint |
| MiniCodec.LawsAreSatisfiable | internal/store/store.go:602-628 | a concrete record format meets all the laws asked of the codec |
| Bodies.BodyRoundTrip | internal/delivery/delivery.go:91-143 | a body is written as compacted JSON if it is JSON and in base64 if not; read back it is that JSON, or any other body exactly, and writing it again writes the same |
| Bodies.BadBodiesAreRefused | internal/delivery/delivery.go:129-138 | an object with both body fields, or whose base64 does not decode, is refused, and no other |
| Bodies.BodiesAllowLawfulCodec | internal/delivery/delivery.go:91-143 | a record format whose bodies are written and read in these two ways meets every law of the journal's codec |
| Lifecycle.AllConsistent | internal/store/store.go:546-564 | in every state of every run, across restarts, the three maps are consistent |
| Lifecycle.CompletionIsFenced | internal/store/store.go:527-536 | a completion is accepted only with the attempt number of the latest claim, and only if nothing touched the delivery since |
| Lifecycle.OneCompletionPerClaim | internal/store/store.go:271-308 | between two accepted completions lies a claim of the second's own |
| Lifecycle.ClaimsIncrease | internal/store/store.go:256-266 | within a retry cycle later claims get higher attempt numbers |
| Lifecycle.AcceptedHolderIsCurrentIffSameCycle | internal/store/store.go:331-353 | an accepted holder's claim is still the latest if and only if no retry came after it |
| Waiting.StaleHolderIsAccepted | internal/store/store.go:343 | a run in which a holder from before a retry completes a delivery claimed anew |
| Lifecycle.ClaimsAreALeaseApart | internal/store/store.go:236-242 | two claims with no completion between them are at least the lease apart |
| Lifecycle.ClaimedNoEarlier | internal/store/store.go:236-242 | a delivery that nothing touched since its creation, failure, retry or claim is not claimed before the time of creation, the next attempt handed in, the time of the retry, or the end of the lease |
| Lifecycle.RetryBudget | internal/store/store.go:256-307 | pending work has attempts left; in a cycle attempts are completions and reclaims and the one under way, at most the budget and the reclaims |
| Lifecycle.BudgetEndsCycle | internal/worker/worker.go:169-174 | a cycle without an expired lease is over after as many completions as the budget |
| Lifecycle.LeasesAndTimes | internal/store/store.go:276-307 | only work in flight carries a lease, and terminal work no next attempt |
| Lifecycle.IdentityIsImmutable | internal/store/store.go:546-552 | ID, key, request, budget, creation time and fingerprint never change, up to the canonical body |
| Lifecycle.TerminalIsFinal | internal/store/store.go:310-353 | succeeded and canceled deliveries stay so while they live, failed ones unless retried |
| Lifecycle.OnlyPruneRemoves | internal/store/store.go:403-435 | a delivery disappears only by a prune that found it terminal and old |
| Lifecycle.KeyIsFreeIffPruned | internal/store/store.go:554-564 | a key is free if and only if every delivery created with it has been pruned, and names at most one live delivery |
| Idempotency.RecreateAnswersIffSame | internal/store/store.go:170-179 | through any mutations, crashes and compactions a key leads to its live delivery, and a request with it matches if and only if it agrees on every hashed field |
| Idempotency.CreateTwice | internal/store/store.go:160-186 | of two creations with one key the second is answered with the delivery of the first if their normal forms agree on every hashed field, and conflicts if not; together they make at most one delivery |
| Waiting.ReturnedWithin | internal/store/store.go:218-268 | with an advancing clock and no lease expiring, a due delivery is returned by one of the next calls of ClaimDue for one item, at most one more than the deliveries ahead of it, unless something else touches it first |
| Waiting.ClaimCallTakesFirst | internal/store/store.go:235-268 | while a due delivery waits such a call returns one, and the first |
| Waiting.BoundedWaiting | internal/store/store.go:235-268 | on the lifecycle side each such claim shortens the queue ahead of it, whatever else happens |
| FingerprintProofs.PreimageUnambiguous | internal/delivery/delivery.go:216-259 | two normalised requests hash the same bytes if and only if they agree on method, URL, budget, headers and body |
| FingerprintProofs.TextUnambiguous | internal/delivery/delivery.go:216-233 | the line format can be read in one way only, the body not being mistaken for a header |
| FingerprintProofs.BinaryUnambiguous | internal/delivery/delivery.go:235-259 | so can the length-prefixed format, for any requests |
| FingerprintProofs.FormatsAreApart | internal/delivery/delivery.go:235-238 | no line preimage equals a length-prefixed one |
| FingerprintProofs.HashIdentifiesRequest | internal/delivery/delivery.go:216-259 | with a collision-free digest, equal fingerprints mean equal requests |
| JsonGrammar.ValidIffText | internal/delivery/delivery.go:216-219 | the recogniser accepts exactly the texts of the grammar of RFC 8259, sections 2 to 7, nested at most 10000 deep |
| Json.ScalarTextHasNoColon | internal/delivery/delivery.go:216-219 | valid JSON that does not open a container or a string has no colon in it |
| Requests.Normalize | internal/delivery/delivery.go:145-214 | accepts exactly the requests the rules accept and returns their normal form |
| Requests.NormalizeHeaders | internal/delivery/delivery.go:190-207 | accepts headers if and only if names and values are allowed and no two names become one |
| Requests.NormalFormUnique | internal/delivery/delivery.go:145-214 | the normal form does not depend on the order in which headers are visited |
| Requests.Fingerprint | internal/delivery/delivery.go:216-233 | feeds the digest exactly the preimage of the request |
| Requests.BinaryFingerprint | internal/delivery/delivery.go:235-259 | the same for bodies that are not JSON |
| Requests.AcceptedIff | internal/delivery/delivery.go:145-311 | a request is acceptable exactly when it meets each rule, with every limit, character class and reserved name written out |
| FingerprintProofs.TextFormat | internal/delivery/delivery.go:221-232 | the line format byte by byte, for one header |
| FingerprintProofs.BinaryFormat | internal/delivery/delivery.go:235-255 | the length-prefixed format, for one header |
| FingerprintProofs.FieldFormat | internal/delivery/delivery.go:257-259 | a field is its length in decimal, a colon, and as many bytes |
| FingerprintProofs.NamesInOrder | internal/delivery/delivery.go:227-228 | two headers are hashed in the order of their names |
| Text.LessIsLexicographic | internal/store/store.go:246 | strings are compared byte by byte, a prefix coming first |
| Selections.FirstAreTaken | internal/store/store.go:236-254 | no due delivery that a claim leaves comes before one it takes |
| Selections.SortedCandidates | internal/store/store.go:243-251 | sorting the candidates, found in any order, gives the one claim order |
| Selections.PruneIsExact | internal/store/store.go:403-435 | a prune removes exactly what succeeded, failed or was canceled and was last updated at or before the cutoff, with its hash, and counts it |
| Stores.Store.constructor | internal/store/store.go:128-136 | the opened store with the replayed maps |
| Stores.Store.AppendData | internal/store/store.go:574-589 | works exactly when persistence is on, there is a file and no call fails; then the file is its old bytes and the data, all synchronised, and no other file has changed; otherwise persistence is off, and if it was off already nothing is touched |
| Stores.Store.Persist | internal/store/store.go:538-552 | appends a version 2 record of the delivery and its hash and a newline, and then files both under its ID, and its key; on an error the maps stay |
| Stores.Store.SetItem | internal/store/store.go:546-552 | refines the specification of setLocked |
| Stores.Store.DeleteItem | internal/store/store.go:554-564 | refines the specification of deleteLocked |
| Stores.Store.Succeed | internal/store/store.go:271-286 | fails on an unknown ID, and as stale exactly when the delivery is not in flight under that attempt, leaving everything alone; otherwise, if the append works, it has succeeded with the code and without error text, next attempt and lease, everything else as before |
| Stores.Store.Fail | internal/store/store.go:288-308 | likewise; it has the code and the message and no lease, and has failed without a next attempt if the failure is final, and is pending until exactly the time handed in if not |
| Stores.Store.Cancel | internal/store/store.go:310-329 | refuses exactly what has succeeded, failed or been canceled; otherwise the delivery is canceled, without next attempt and lease, everything else as before |
| Stores.Store.Retry | internal/store/store.go:331-353 | refuses what has not failed; otherwise it is pending and due now, with no attempts, error text and code, everything else as before |
| Stores.Store.CheckAdmission | internal/store/store.go:694-710 | admits exactly what keeps the journal within its limit, and says that it is full exactly when the record and its newline do not fit |
| Stores.Store.Create | internal/store/store.go:160-186 | rejects what is not acceptable, answers a known key or conflicts without touching anything, and otherwise creates exactly when the record fits and its append works; the delivery stored and returned has the new ID, the request's trimmed key and URL, its method, canonical headers, body and budget or their defaults, is untried and due now, and its key leads to it; the journal stays within its limit |
| Stores.Store.ClaimDueMatching | internal/store/store.go:222-269 | what has changed is exactly what is returned, and was eligible and pending with its time come, or in flight with its lease over; it comes earlier by next attempt, creation and ID than any such delivery left, and none is left if there was room and no append failed; in consistent maps no key has changed |
| Stores.Store.PruneTerminal | internal/store/store.go:403-435 | removes exactly the old terminal deliveries, or nothing; fails exactly when there are some and the append does not work |
| Stores.Store.Compact | internal/store/store.go:437-525 | for each place it can stop: the old journal and state; the snapshot in place with persistence off; or the durable snapshot and a repaired store, the result being an error unless nothing failed |
| Stores.Store.Open | internal/store/store.go:80-144 | succeeds exactly when the journal replays, or can be made and its name synchronised; then the maps are what replay makes of it, the store is where the steps of that start lead, a new journal has the one durable name, and no file has changed |
| Stores.Store.ReplayJournal | internal/store/store.go:630-671 | the reading loop computes the replay function, which the rows on what replay reads fix for every line |
| Stores.Store.Close | internal/store/store.go:146-158 | a store without a file |
| Attempts.VerdictPartition | internal/worker/worker.go:153-223 | exactly a whole 2xx answer succeeds; no reply, a reply cut off under 2xx, and 0, 408, 425, 429 and 500 and up are tried again while attempts are left; all else fails for good |
| Backoffs.Backoff | internal/worker/worker.go:225-249 | computes the least of base doubled attempt-1 times and the maximum, jittered and capped, without leaving 64 bits |
| Backoffs.FirstDelay | internal/worker/worker.go:225-238 | the first delay is the base, or the maximum if that is less |
| Backoffs.NextDelay | internal/worker/worker.go:229-238 | each next one is twice the one before, or the maximum |
| Backoffs.JitterIs | internal/worker/worker.go:240-248 | the wait is the delay times 0.8 and a thousandth for each unit of hash mod 401, rounded down, no more than the maximum |
| Backoffs.WaitRange | internal/worker/worker.go:240-248 | a jittered wait is within 0.8 and 1.2 times the delay and never above the maximum |
| Backoffs.NeverShorterIff | internal/worker/worker.go:225-249 | for all hashes the next wait is no shorter if and only if the delay can double or is small beside the maximum |
| Backoffs.WaitsMayShrink | internal/worker/worker.go:240-248 | at the maximum a wait can be a fifth shorter than the one before |
| Pools.Pool.constructor | internal/worker/worker.go:55-81 | a pool with nothing under way, its settings as given or, where not positive, 30s, 1s, 5min and 1 |
| Pools.Pool.ClaimDue | internal/worker/worker.go:128-139 | claims the first due delivery whose origin has fewer than the limit under way, and counts it only if its claim was journaled; when it returns none and did not fail, the origin of every due delivery is at the limit |
| Pools.Pool.ReleaseTarget | internal/worker/worker.go:141-151 | lowers the origin's count, dropping it at the end |
| Pools.Pool.Deliver | internal/worker/worker.go:153-223 | if the lease stands and the append works, a whole 2xx answer is stored as success; anything else with its code and error text, pending until the wait after its clock reading if it may work later and attempts are left, and as failed if not; otherwise nothing changes; and it counts what was stored |
| Pools.Pool.Turn | internal/worker/worker.go:114-122 | a turn of the loop leaves the counts as it found them |
| Targets.ReleaseUndoesClaim | internal/worker/worker.go:135-150 | releasing after claiming restores the counts exactly |
| Selections.ClaimOfOne | internal/worker/worker.go:128-139 | a claim of one delivery takes the first due eligible one and changes nothing else |
| PoolRuns.PoolIsConserved | internal/worker/worker.go:103-151 | under every interleaving each origin's count is the number of workers holding a delivery for it, within the limit, never zero, together at most the workers, and gone when none is held |
| PoolRuns.PoolRunIsFollowed | internal/worker/worker.go:103-186 | the saved mutations of a pool run in the order of its moves, and what reboots leave of stray ones, are a lifecycle run that ends in its maps, with fresh IDs, the configured lease and the workers' budget rule |
| PoolRuns.AcceptedReportIsCurrent | internal/worker/worker.go:153-186 | when a worker's report on the copy it claimed is accepted, nothing touched the delivery since that claim if and only if it was not retried, and then the stored delivery is the worker's copy up to the canonical body and error text |
| PoolRuns.PendingHasBudget | internal/worker/worker.go:169-174 | so pending work always has attempts left |
| PoolCalls.ClaimAs | internal/worker/worker.go:128-139 | whoever calls claimDue, and whenever, it is the Take of that worker: it then holds what was claimed |
| PoolCalls.ReportAs | internal/worker/worker.go:153-186 | deliver on the copy a worker holds is its Report, saved if and only if an append could work |
| PoolCalls.ReleaseAs | internal/worker/worker.go:141-151 | releaseTarget is the Release of a worker that has reported |
| PoolCalls.CommandAs | internal/store/store.go:310-353 | Cancel and Retry are served mutations if their guard holds, and no move otherwise |
| PoolCalls.CreateAs | internal/store/store.go:160-186 | so is Create if the new delivery is admitted or its append fails; refused and known requests are no move |
| PoolCalls.PruneAs | internal/store/store.go:403-435 | so is PruneTerminal if there is anything to prune |
| PoolCalls.CompactAs | internal/store/store.go:437-525 | Compact is a Repair once persistence works, and no move otherwise |
| PoolCalls.LaunchAs | internal/worker/worker.go:55-81 | a new pool over the maps of a run, with nothing under way, is where the run leads |
| PoolCalls.ClaimIsTake | internal/worker/worker.go:128-139 | what claimDue does to the maps, the counts and the worker is what the move does, also when its append fails |
| PoolCalls.CallsKeepPromises | internal/worker/worker.go:103-151 | so after any such calls the pool's own counts are those of its busy workers, within the limit, none zero, together at most the workers and gone when none is busy; its maps are consistent and pending work has attempts left |
| Compactors.Compactor.Compact | internal/compactor/compactor.go:124-149 | works exactly when the store has a file and no call fails; success means a durable snapshot, and a failure of persistence is cured only by one |
| Compactors.Compactor.CompactIfNeeded | internal/compactor/compactor.go:108-122 | touches nothing unless the journal has the size of the threshold and two records a live delivery; success then at least halves the records |
| Compactors.Compactor.Maintain | internal/compactor/compactor.go:80-106 | if the store is ready, there is a retention and the append works, exactly what succeeded, failed or was canceled a retention ago or earlier is gone, and otherwise nothing is; the rest is untouched; a store that is not ready, one that was pruned, and a redundant one with nothing to prune are compacted, and exactly these, onto a snapshot of the final maps |
| Compactors.PruneKeepsLiveWork | internal/compactor/compactor.go:88-92 | retention leaves every pending and in-flight delivery as it was and adds none |
| Compactors.Compactor.CompactsWhen | internal/compactor/compactor.go:80-122 | a round compacts exactly: without persistence or its file; when it journals the removal of something older than the retention; and, with nothing to remove, when at least half the records of a big journal are redundant |
| Amortised.CompactionCostsIff | internal/compactor/compactor.go:108-122 | a redundancy compaction writes more records than it removes if and only if the trigger no longer holds when it puts the snapshot in place |
| Amortised.PlainBound | internal/compactor/compactor.go:108-122 | in every run between two starts in which it still holds, records written by redundancy compactions and records in the journal are at most the initial ones and those appended |
| Amortised.RedundancyIsPaidFor | internal/compactor/compactor.go:108-122 | in every run they are at most those and the records appended between a look and its compaction |
| Amortised.OpenCountsCover | internal/store/store.go:630-671 | a start finds at least as many records as live deliveries |
| Amortised.RaceCosts | internal/compactor/compactor.go:112-121 | a creation between the look and the compaction breaks the bound that ignores it and meets the one that counts it |

## Left out

* HTTP API, command line, flags, metrics, logging, listeners and the installer.
* `internal/target` and the outbound request itself: an attempt has a free outcome, one
  of no reply, an unreadable reply or an answer.
* Lock files and their release: one process owns the journal.
* SHA-256, FNV, random IDs, `encoding/json`, base64, `net/url`, header canonicalisation
  and the origin of a URL: functions with stated laws.
* Errors of `json.Marshal` on a record, and of `Seek` and reads during replay: a call that
  fails so returns before it has any effect the model tracks.
* `Get`, `List`, `Counts`, cloning, `reducedInt64`, `validStatus`: they only copy, count
  or filter.
* Tickers, contexts and scheduling: which step comes next is free.
- Backoffs.Backoff: the jitter is the exact rational delay * (800 + hash mod 401) / 1000, rounded down; the source multiplies in floating point, and its conversion back is not defined when the product leaves 64 bits.
- Refinement.RunIsExplained: speaks of runs that append safely; what an unsafe append does is said by Appends.AppendDurableIffSafe and Appends.AppendReadableIffClean, not explained further.
- Pools.Pool.Turn: one worker's turn with nothing in between; the interleavings are those of PoolRuns and PoolCalls.
- Attempts.VerdictPartition: a reading of deliver and send together, case by case, with no proof work of its own.
- Amortised.RedundancyIsPaidFor: compactions that fail before the rename write records too, and these are not counted.
- PoolCalls.LaunchAs: that the maps a start loads are those the moves lead to is a hypothesis; what a crash leaves on the disk is said by Refinement.RunIsExplained.
- PoolRuns.PoolRunIsFollowed: a failed append turns persistence off until a compaction or a restart, as in the store; the disk itself is not part of this level.
- Waiting.BoundedWaiting: takes for granted that no lease expires and that the clock advances strictly, as the property needs.
