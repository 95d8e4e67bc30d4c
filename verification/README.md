# VeriAI receipts: a verified model

VeriAI makes an inference accountable: an enclave signs a *receipt* that binds the hash of a model
file, of the input and of the output to an attestation document of the enclave's platform, and a
*verifier service* accepts such a receipt at most once. This project models the logic of that system
and proves what it is for. It is written in Dafny 4.11; `dafny verify dfyconfig.toml` checks all of it.

## What is modelled

**The replay and challenge protocol of the verifier service** (`ReplayProtocol`, `ReplayInvariant`,
`ReplaySteps`, `ReplayOutside`, `ReplaySafety`, `ReplayTheorems`, `ReplayProgress`). Any number of
service processes share one state file, one advisory lock and one challenge directory. A state holds the
disk, the processes with their memories, the requests with the point each has reached, the issuers of
challenges (which take no lock), the clock, and a history of issues, commits and responses. An action is
one operation of one request, with a separate action for its failure, or the start or crash of a
process, or a change of the clock. `Next` executes one action, so the runs are exactly the finite lists
of actions: every interleaving, every I/O failure, crashes anywhere. Processes may share the process
number they put into file names, as processes in different containers do and as a service does with
itself after a restart. The laws are proved of every run from an inductive invariant; `ReplayProgress`
adds that no request takes more than 21 steps and that the requests of any reachable state can all be
answered. Fingerprints and nonces stand for their 32 bytes; nothing assumes that drawn nonces are fresh
or that the clock is monotonic.

**The handlers themselves** (`HandlerOutcomes`, `VerifierService`, `ServiceRefinement`,
`ServiceVerdicts`). The class `Service` has the fields the handlers change (memory, temporary-file
counter, mutex, state file, temporary files, challenge directory, lock), and one method for each
operation and helper. The field `faults` is the set of I/O operations that fail if they are tried, any
set at all. The handlers are proved twice: to leave exactly the answer, memory, state file and challenge
directory that the failing operations say, and to be runs of the protocol's own steps, so that the laws
of the protocol speak of them. What those outcomes mean is proved in `HandlerOutcomes`: exactly when a
receipt is accepted, and exactly when a request that is not accepted leaves its challenge available,
left aside under its reserved name, or gone. The handlers are run without contention: a handler starts
when the mutex and the lock are free, and what other requests do in between is the business of the
protocol model. The verdict on a receipt that handlers and protocol work with is shown to be what the
verifier of `ReceiptVerifier` answers.

**The hash of the model file** (`MerkleTree`, `ModelHash`). The read loop over a file whose reads may
return less than was asked for, the leaf list, and the level loop with duplication of an odd last node,
against a recursive perfect tree over the leaves padded by an index map. Which files have equal roots is
settled for all pairs of files: those that no root can tell apart, and those that exhibit a collision of
SHA-256.

**Receipt verification** (`Cose`, `VerificationPolicy`, `ReceiptVerifier`, `SubmissionHistory`,
`AcceptedReceipts`). The policy is 33 requirements, each stated on its own; the verifier is the long
sequence of early returns that pushes checks and updates the replay state. `SubmissionHistory` says
which of a whole series of submissions one stateful verifier accepts, and which receipts of one
generator. `AcceptedReceipts` spells acceptance out down to the bytes: header values, message layouts,
units and bounds, what is remembered, and the answer that is given.

**Receipt generation** (`ReceiptGenerator`, `ConcurrentGeneration`). The generator with its counter, the
end-to-end law "generate, then verify", and the state machine of any number of callers that share one
generator, with failing attestations and calls given up while they wait.

**Trust anchors** (`CertificateChain`, `AcceptedDocuments`, `AttestedReceipts`, `RootPem`, `Text`). The
certificate-chain walk with its index-based path-length test against the counter of section 6.1.4 of RFC
5280, what an accepted receipt thereby proves about the document it carries, and the two readers of the
trusted-root PEM text, the strict allowlist validator and the lax loader.

**Claims and completions** (`ClaimCodec`, `Completion`). The reader and writer of the claim map, and the
extraction of a completion from the output of `llama-cli`.

Hash functions, signatures, CBOR, COSE, X.509 and base64 are function-valued parameters about which
nothing is assumed. The end-to-end law needs more: that the verifier's libraries read back what the
generator's write and accept what it signs (`ReceiptGenerator.ReadsWhatIsWritten`), and that the
provider, whatever it is asked to attest, answers with an honest report of just that
(`ReceiptGenerator.HonestProvider`). Both are laws about the libraries and the platform, not about the
receipt in question; which nonce, key and report data a document carries follows from what the generator
passes to the provider. The laws about an injective pair hash are stated for any type of digests,
because no injective function maps pairs of 32-byte digests to 32-byte digests; the collision extractors
assume nothing.

Where a law is stated through a function of the model that the modelled code shares, a second statement pins
that function down without naming it: bytes and numbers are written out (`AcceptedReceipts`,
`ClaimCodec.DecodedMeans`, `ModelHash.ChunksAt`), certificates are read from their own extension lists
(`AcceptedDocuments`), texts from their lines (`Text.LinesOfText`, `RootPem.LoadPemText`), and the handlers'
answers from lock, files, clock and failing operations (`HandlerOutcomes.AnswersFromDisk`).

## Where code and documentation part

* The format document under `docs/` (lines 23-25) says that receipts with the content type in the
  unprotected header are still accepted; the verifier rejects every receipt whose unprotected header is
  not empty (`verify.rs:197-206`). `ReceiptVerifier.LegacyContentTypeIsRefused` shows that such a receipt is
  refused whatever else it contains, and `PastHeadersExactlyWhen` which receipts get past the headers.
* When the verifier itself returns an error, the challenge stays reserved: it is neither restored nor
  consumed (`main.rs:347-370`). The same happens when the sync after the reserving rename fails
  (`main.rs:476`), the snapshot (`main.rs:332-345`), the restoring rename (`main.rs:77`) or the removal
  (`main.rs:87`). `HandlerOutcomes.ChallengeAfterFailure` gives the exact condition for one request, and
  `ReplayTheorems.FailureStrandsForGood` says that no request of any later run, restarts of the service
  included, restores or consumes the record. `StrandedStays` says exactly when it loses its name.
* When the rename of the state file succeeds and the directory sync then fails, the file keeps the new
  entry while memory is rolled back and the challenge is restored (`main.rs:626-655`).
  `ReplayTheorems.SyncFailureKeepsCommit` says so, and `CommittedIsRefused` that the pair is refused from
  then on although no one was told it was accepted. `HandlerOutcomes.RetryAfterFailedPersist` says that a
  receipt which could not be persisted may be presented again exactly when this is not what happened.
* Two different files may have equal roots without a collision: repeating the last chunk may keep the root
  (`ModelHash.RepeatedLastChunk`), and so may a tree of another height (`MerkleTree.PairAndItsNode`,
  `ModelHash.HeightsMayNotBeMixed`). `ModelHash.IndistinctRoots` and `FindCollision` give the exact
  condition: the files have the same pieces once padded, or one of them consists of the 64 bytes of the two
  digests right below the root of the other; any other two files with equal roots yield a collision.
* The alignment subtraction is checked in the code; `ReceiptVerifier.AlignmentOverflowsExactly` gives the
  configurations under which it can overflow at all.

## Model

| member | source | states |
|---|---|---|
| ReplayTheorems.CommitsIncrease | crates/verifier-service/src/main.rs:289-314 | over every run, the sequence numbers committed for one fingerprint strictly increase in commit order |
| ReplayTheorems.NoReplay | crates/verifier-service/src/main.rs:347-408 | over every run, no (fingerprint, sequence) pair gets a valid response twice, whatever processes, failures and crashes there are |
| ReplayTheorems.DurableBeforeAcknowledged | crates/verifier-service/src/main.rs:580-655 | in every reachable state the state file is absent or whole, and covers every commit and every acknowledged receipt |
| ReplayTheorems.DurableNeverDecreases | crates/verifier-service/src/main.rs:580-639 | no step lowers or forgets a durable entry |
| ReplayTheorems.DurableOverRuns | crates/verifier-service/src/main.rs:580-655 | durable entries only grow from any point of a run to any later one, rollbacks and failed syncs included |
| ReplayTheorems.CommittedIsRefused | crates/verifier-service/src/main.rs:381-400 | once a pair is committed, even if its handler answered with an error, the verifier refuses it and everything below it |
| ReplayTheorems.ChallengesConserved | crates/verifier-service/src/main.rs:455-481 | for each nonce, valid strict responses plus records available or reserved never exceed issues, over every run and with drawn nonces that may repeat |
| ReplayTheorems.TokensFit | crates/verifier-service/src/main.rs:71-91 | the same count, from the part of the invariant that says each record has one name, or was taken by one request, or is gone |
| ReplayTheorems.AcceptedWasUnexpired | crates/verifier-service/src/main.rs:455-466 | every valid strict response took a record of its own nonce that was complete and unexpired when it was reserved, and no two took the same one |
| ReplayTheorems.SyncFailureKeepsCommit | crates/verifier-service/src/main.rs:626-655 | after a rename whose directory sync failed, the file keeps the accepted entry, memory is the snapshot, and the challenge is available again |
| ReplayTheorems.InfraErrorStrands | crates/verifier-service/src/main.rs:347-370 | when the verifier itself errs, the challenge is left reserved, in nobody's hand |
| ReplayTheorems.FailureStrands | crates/verifier-service/src/main.rs:332-345 | the same of a failed snapshot, and of a failing sync after the reserving rename, removal or restoring rename |
| ReplayTheorems.StrandedStays | crates/verifier-service/src/main.rs:455-481 | a stranded record keeps its name in every step, except exactly when a request reserves another record under that name, which takes a process of the same number at the same count |
| ReplayTheorems.StrandedIsLost | crates/verifier-service/src/main.rs:455-481 | a stranded record is lost: not taken, and with no name but a reserved one that no request has in hand |
| ReplayTheorems.LostStays | crates/verifier-service/src/main.rs:455-481 | a lost record stays lost under every step of everybody, crashes and restarts under any process number included |
| ReplayTheorems.LostForGood | crates/verifier-service/src/main.rs:455-481 | and over every run |
| ReplayTheorems.FailureStrandsForGood | crates/verifier-service/src/main.rs:315-403 | over every run after a failure at one of those points, whatever it contains, the record is never available and never taken again |
| ReplayTheorems.CrashMeans | crates/verifier-service/src/main.rs:289-314 | a crash at any point takes the process, its requests, issuers and guards with it, and leaves disk and history alone |
| ReplayTheorems.StartMeans | crates/verifier-service/src/main.rs:124-133 | a process starts with the table of the state file and an unused counter |
| ReplayTheorems.TickMeans | crates/verifier-service/src/main.rs:447-453 | the clock may be set to anything, backwards too |
| ReplayTheorems.IssueMeans | crates/verifier-service/src/main.rs:176-196 | a challenge asked for now expires in 300 seconds and is drawn at most eight times |
| ReplayInvariant.InsideInv | crates/verifier-service/src/main.rs:289-408 | any step of the lock holder that keeps the file growing, commits above everything durable, and moves only its own record keeps the whole invariant |
| ReplayOutside.OutsideInv | crates/verifier-service/src/main.rs:176-223 | any step outside the critical section that leaves file, memories and reserved records alone keeps the whole invariant |
| ReplaySteps.InsideGood | crates/verifier-service/src/main.rs:301-408 | each of the operations of the lock holder, successful or failing, is such a step |
| ReplaySafety.StepKeeps | crates/verifier-service/src/main.rs:225-408 | every action of every request, issuer and process keeps the invariant |
| ReplaySafety.RunInv | crates/verifier-service/src/main.rs:225-408 | the invariant holds after every finite list of actions from a start with no process and no challenge |
| ReplayProgress.StepMoves | crates/verifier-service/src/main.rs:297-408 | every step of a request that does anything brings that request nearer to its answer and touches no other request |
| ReplayProgress.StepsAreBounded | crates/verifier-service/src/main.rs:297-408 | however requests are interleaved and whatever fails, a request takes at most 21 steps, and no more than are ahead of it |
| ReplayProgress.EverybodyIsAnswered | crates/verifier-service/src/main.rs:297-408 | no deadlock: from every reachable state steps of the requests alone get each of them answered, with the lock and every mutex free |
| VerifierService.Service.constructor | crates/verifier-service/src/main.rs:113-133 | a process starts with the table of the state file, empty without one, and does not start from a file that is not whole |
| VerifierService.Service.AcquireReplayLock | crates/verifier-service/src/main.rs:421-432 | the advisory lock is held exactly when the call succeeds |
| VerifierService.Service.LoadReplayState | crates/verifier-service/src/main.rs:303-310 | memory becomes the table of the file, stays as it is without a file; it fails exactly when a file is there that cannot be read or is not whole, and then leaves memory alone |
| VerifierService.Service.ReadChallenge | crates/verifier-service/src/main.rs:455-466 | succeeds exactly on a complete unexpired record that can be read; only an expired record that can be read is removed |
| VerifierService.Service.MoveRecord | crates/verifier-service/src/main.rs:467-475 | the record gets a name made of nonce, process and counter exactly when it is there and the rename works; the counter is used up either way |
| VerifierService.Service.ReserveChallenge | crates/verifier-service/src/main.rs:455-481 | succeeds exactly on a live challenge when reading, rename and sync work; the directory is untouched, without the expired record, or has the record under the reserved name, each exactly when the failing operations say |
| VerifierService.Service.CallVerifier | crates/veriai-core/src/verify.rs:535-558 | the answer is an error, a refusal, or acceptance exactly for a number above the remembered one, and only acceptance changes memory |
| VerifierService.Service.WriteAndRename | crates/verifier-service/src/main.rs:603-633 | the state file is replaced by the whole table in memory exactly when write and rename work, and the call succeeds exactly when the last sync works too |
| VerifierService.Service.PersistReplayState | crates/verifier-service/src/main.rs:580-639 | the same with the creation of a new temporary file; success leaves no temporary file, and so does failure when its removal works |
| VerifierService.Service.PersistReplayStateOrRollback | crates/verifier-service/src/main.rs:641-655 | memory is the table before the receipt was accepted exactly when persisting fails, also when the file already holds the new one |
| VerifierService.Service.RestoreReservation | crates/verifier-service/src/main.rs:72-80 | what the reserved name held is the available challenge again exactly when it is there and the rename works; success needs the sync too |
| VerifierService.Service.ConsumeReservation | crates/verifier-service/src/main.rs:82-90 | the reserved record is gone exactly when the removal works; success needs that it was there, and the sync too |
| VerifierService.Service.Commit | crates/verifier-service/src/main.rs:381-403 | what persisting, removal and restoring each do decides the outcome, memory, file and directory: a persisted receipt stays in memory and file and its challenge goes, otherwise memory is the snapshot and the challenge goes back |
| VerifierService.Service.Decide | crates/verifier-service/src/main.rs:332-403 | the verifier's answer and the failing operations fix the answer, memory, file and challenge directory, after acceptance, refusal and every failure |
| VerifierService.Service.Transaction | crates/verifier-service/src/main.rs:297-403 | the whole guarded section: answer, memory, file and directory are those of the reloaded table, the challenge as it stands, and the failing operations; without a reload nothing is touched |
| VerifierService.Service.DropGuards | crates/verifier-service/src/main.rs:372-404 | both guards go however the request ends, the mutex first only after acceptance |
| VerifierService.Service.VerifyHandler | crates/verifier-service/src/main.rs:225-408 | all of that with both guards free again; and the handler is a run of the request's own protocol steps |
| VerifierService.Service.DrawNonce | crates/verifier-service/src/main.rs:196-221 | the record is created under the first of eight drawn nonces that names no available challenge, unless there is none or the file cannot be opened |
| VerifierService.Service.ChallengeHandler | crates/verifier-service/src/main.rs:176-223 | an announced challenge is a new complete record that expires in 300 seconds; it is announced exactly when the clock allows, a draw is free and no operation fails; a failure leaves a record nobody was told of only when filling or syncing it failed |
| HandlerOutcomes.DecisionConcludes | crates/verifier-service/src/main.rs:315-403 | set aside and removed removes the challenge; set aside and put back leaves the directory as it was but for a leftover of the same reserved name |
| HandlerOutcomes.AcceptedExactly | crates/verifier-service/src/main.rs:315-408 | a receipt is accepted exactly when the policy holds, its number is new, a strict request names a live challenge, and none of the operations it needs fails |
| HandlerOutcomes.ExpectedWithoutFaults | crates/verifier-service/src/main.rs:315-408 | when nothing fails, the answer is the verifier's, or a refusal for want of a live challenge |
| HandlerOutcomes.AnswersMean | crates/verifier-service/src/main.rs:289-314 | accepted: newer than the table, now in memory and file, the challenge gone; refused: nothing changed; failed: memory and file as before but for this one receipt, memory never ahead |
| HandlerOutcomes.ChallengeAfterFailure | crates/verifier-service/src/main.rs:381-403 | a strict request that is not accepted leaves its live challenge available, left aside, or gone, each with its exact condition |
| HandlerOutcomes.OnlySpentOrExpiredDisappear | crates/verifier-service/src/main.rs:455-466 | a challenge only disappears when it had expired, or its receipt is in memory and file |
| HandlerOutcomes.RetryAfterFailedPersist | crates/verifier-service/src/main.rs:381-400 | after a failed persist the same receipt and challenge are accepted again exactly when the new table had not yet replaced the file |
| HandlerOutcomes.AnswersFromDisk | crates/verifier-service/src/main.rs:289-408 | each answer exactly when lock, state file, challenge record, clock, temporary files and failing operations call for it: valid, not valid, infrastructure error, invalid challenge, and otherwise a replay-state error |
| VerifierService.DrawsMean | crates/verifier-service/src/main.rs:196-221 | eight draws at most, and the first that is free is taken |
| ServiceRefinement.HandlerStaysInProtocol | crates/verifier-service/src/main.rs:225-408 | a handler started in a reachable state of the protocol ends in one, so every law about runs speaks of it |
| ServiceRefinement.ServedOnce | crates/verifier-service/src/main.rs:381-408 | a valid answer of the handler is the only one its pair ever gets in any run from there on, and it stays durable |
| ServiceVerdicts.JudgementIsTheVerifiers | crates/verifier-service/src/main.rs:347-379 | whatever is remembered, the handler's judgement of a receipt is exactly the answer of the verifier: error, refusal or acceptance |
| ServiceVerdicts.MemoryIsTheVerifiers | crates/veriai-core/src/verify.rs:535-558 | and the table the handler then holds is exactly what the verifier remembers |
| ServiceVerdicts.SameFailure | crates/veriai-core/src/verify.rs:165-533 | a call out of order fails at the same requirement on every table |
| ServiceRefinement.IssueStaysInProtocol | crates/verifier-service/src/main.rs:176-223 | the same for issuing a challenge |
| MerkleTree.RootIsPerfect | crates/veriai-core/src/hashing.rs:58-82 | the level loop's root is the root of the perfect tree over the leaves padded to 2^h by the duplication index map |
| MerkleTree.RootsAgree | crates/veriai-core/src/hashing.rs:58-82 | with an injective pair hash, lists of equal height have equal roots exactly when their padded lists are equal |
| MerkleTree.RootsAgreeAcrossHeights | crates/veriai-core/src/hashing.rs:58-82 | with an injective pair hash, lists of any lengths have equal roots exactly when their levels of the lesser height have equal paddings |
| MerkleTree.RootAtHeight | crates/veriai-core/src/hashing.rs:59-80 | climbing to the level of a given height does not change the root |
| MerkleTree.PaddedAtHeight | crates/veriai-core/src/hashing.rs:59-80 | padding may come before or after the climb |
| MerkleTree.PaddedInjective | crates/veriai-core/src/hashing.rs:71-77 | lists of equal length have equal paddings exactly when they are equal |
| MerkleTree.RootInjectiveAtEqualLength | crates/veriai-core/src/hashing.rs:58-82 | with an injective pair hash, lists of equal length have equal roots exactly when they are equal |
| MerkleTree.DuplicatedLastLeaf | crates/veriai-core/src/hashing.rs:71-77 | appending the last leaf to an odd list of three or more keeps the root |
| MerkleTree.PairAndItsNode | crates/veriai-core/src/hashing.rs:60-82 | a lone leaf is not hashed again, so a pair and its own node share a root |
| MerkleTree.HeightBounds | crates/veriai-core/src/hashing.rs:59-80 | the number of levels h satisfies 2^(h-1) < n <= 2^h for n > 1 |
| MerkleTree.PairHashBounds | crates/veriai-core/src/hashing.rs:59-80 | the number of pair hashes lies between n-1 and n-1+h |
| MerkleTree.RootOfFive | crates/veriai-core/src/hashing.rs:60-80 | with five leaves the last one is paired with itself on two levels |
| ModelHash.ChunksAreAChunking | crates/veriai-core/src/hashing.rs:28-50 | the chunks concatenate back to the file and only the last may be short |
| ModelHash.ChunkingIsUnique | crates/veriai-core/src/hashing.rs:28-50 | there is only one such division, exact multiples of the chunk size included |
| ModelHash.ChunksAt | crates/veriai-core/src/hashing.rs:6-50 | chunk i is the 4194304 bytes from 4194304 i on, or what is left of the file, and there are as many as the file needs |
| ModelHash.RootOfOneChunk | crates/veriai-core/src/hashing.rs:52-57 | a file of up to 4 MiB is hashed as it is, the empty one too |
| ModelHash.RootOfTwoChunks | crates/veriai-core/src/hashing.rs:58-82 | a file of up to 8 MiB is the hash of its two hashes, one after the other |
| ModelHash.RootOfThreeChunks | crates/veriai-core/src/hashing.rs:58-82 | a file of up to 12 MiB has its last hash paired with itself |
| ModelHash.FileReader.Read | crates/veriai-core/src/hashing.rs:31 | a read delivers any positive part of what was asked for, and nothing exactly at the end of the file |
| ModelHash.FillBuffer | crates/veriai-core/src/hashing.rs:29-36 | the inner loop fills the buffer with the next bytes of the file, short only at its end |
| ModelHash.ReadLeaves | crates/veriai-core/src/hashing.rs:28-50 | for every way the reads are split, the leaves are the hashes of the unique chunks |
| ModelHash.HashLevel | crates/veriai-core/src/hashing.rs:61-77 | one pass pairs neighbours and an odd last node with itself |
| ModelHash.HashLevels | crates/veriai-core/src/hashing.rs:58-82 | the loop ends at the perfect-tree root of the padded leaves after h levels and between n-1 and n-1+h hashes |
| ModelHash.HashFileMerkle | crates/veriai-core/src/hashing.rs:23-83 | the whole function computes the root of the file's contents, and fails only when a read fails |
| ModelHash.ExtractCollision | crates/veriai-core/src/hashing.rs:23-83 | two different files with equal chunk counts and roots yield two different inputs with one SHA-256 value, with no assumption on the hash |
| ModelHash.IndistinctRoots | crates/veriai-core/src/hashing.rs:23-83 | files with the same padded pieces, and a file made of the two digests right below the root of another, have equal roots whatever the hash |
| ModelHash.FindCollision | crates/veriai-core/src/hashing.rs:23-83 | any other two files with equal roots, of whatever sizes, yield two different inputs with one SHA-256 value |
| ModelHash.SamePiecesOfEqualCount | crates/veriai-core/src/hashing.rs:28-50 | files of one chunk count have the same padded pieces exactly when they are equal |
| ModelHash.TwoBelowRoot | crates/veriai-core/src/hashing.rs:59-80 | right below the root of a tree of more than one leaf there are two digests, and the root is their hash |
| ModelHash.RootOfPadded | crates/veriai-core/src/hashing.rs:58-82 | a leaf list and its padding have the same root |
| ModelHash.WalkLevels | crates/veriai-core/src/hashing.rs:58-82 | two different leaf lists of equal length with equal roots yield such a pair of inputs |
| ModelHash.RepeatedLastChunk | crates/veriai-core/src/hashing.rs:16-22 | a file of an odd number, three or more, of full chunks keeps its root when its last chunk is repeated |
| ModelHash.HeightsMayNotBeMixed | crates/veriai-core/src/hashing.rs:58-82 | a file of two chunks shares its root with the 64-byte file of their two hashes |
| VerificationPolicy.PolicyIsOrderFree | crates/veriai-core/src/verify.rs:165-567 | examining the requirements in order is examining the order-free policy |
| VerificationPolicy.BeforeMeaning | crates/veriai-core/src/verify.rs:165-567 | standing before a requirement means that exactly those of lower rank were met |
| VerificationPolicy.FirstFailureIsUnique | crates/veriai-core/src/verify.rs:165-567 | at most one requirement is the first to fail, and then the policy fails |
| VerificationPolicy.AfterLastSlashMeaning | crates/veriai-core/src/verify.rs:609-619 | the version is the part of the SDK identifier after its last slash |
| ReceiptVerifier.CheckEnvelope | crates/veriai-core/src/verify.rs:165-226 | sizes, format and payload: all met and recorded, or the answer of the first that fails |
| ReceiptVerifier.CheckClaims | crates/veriai-core/src/verify.rs:228-286 | the same for claims, attestation type and receipt signature |
| ReceiptVerifier.SomeRootAttests | crates/veriai-core/src/verify.rs:326-333 | the loop finds whether any trusted root verifies the report; an error counts as no |
| ReceiptVerifier.CheckAttestation | crates/veriai-core/src/verify.rs:288-347 | the same for report, document and chain |
| ReceiptVerifier.CheckSkew | crates/veriai-core/src/verify.rs:349-370 | the same for clock and document time, with i64 arithmetic that stays in range |
| ReceiptVerifier.CheckAge | crates/veriai-core/src/verify.rs:372-385 | the same for clock and claim time |
| ReceiptVerifier.CheckAlignment | crates/veriai-core/src/verify.rs:387-406 | the same for document and claim time |
| ReceiptVerifier.CheckPlatform | crates/veriai-core/src/verify.rs:408-458 | the same for PCR0 and key binding |
| ReceiptVerifier.CheckNonces | crates/veriai-core/src/verify.rs:460-500 | the same for report data and both nonces |
| ReceiptVerifier.CheckHashes | crates/veriai-core/src/verify.rs:502-533 | the same for the three hashes |
| ReceiptVerifier.Verifier.CheckSequence | crates/veriai-core/src/verify.rs:535-558 | the same for the sequence number, with the insertion that follows and no other change |
| ReceiptVerifier.Verifier.Verify | crates/veriai-core/src/verify.rs:128-568 | the answer is the valid one exactly when the policy holds, otherwise that of the first failing requirement; the replay state changes exactly when a stateful verifier accepts |
| ReceiptVerifier.Verifier.GetState | crates/veriai-core/src/verify.rs:570-581 | a copy of the replay state, or an error when it is unavailable |
| ReceiptVerifier.Verifier.SetState | crates/veriai-core/src/verify.rs:583-589 | replaces the state of a stateful verifier and of no other |
| ReceiptVerifier.ValidMeansPolicy | crates/veriai-core/src/verify.rs:560-567 | an answer says valid exactly when every requirement holds |
| ReceiptVerifier.ChecksArePassedPrefixThenFailure | crates/veriai-core/src/verify.rs:137-163 | a result lists all passed checks, or a prefix of them in canonical order and one failed check that names the first failing requirement |
| ReceiptVerifier.OnlyTheLastCheckFails | crates/veriai-core/src/verify.rs:137-163 | in a result that is not valid every check but the last passed |
| ReceiptVerifier.FailureNamesTheStage | crates/veriai-core/src/verify.rs:165-567 | the name of the failed check determines the requirement |
| ReceiptVerifier.MagnitudesAreSafe | crates/veriai-core/src/verify.rs:355-391 | for every u64 document time, i64 claim time and non-negative clock, the skew subtraction and both magnitudes are safe |
| ReceiptVerifier.AlignmentOverflowsExactly | crates/veriai-core/src/verify.rs:387-391 | the alignment subtraction can overflow exactly under a configuration whose receipt age and (attainable) clock skew add up to more than an i64 holds |
| ReceiptVerifier.DefaultsNeverOverflow | crates/veriai-core/src/verify.rs:387-391 | under the default configuration it cannot overflow |
| ReceiptVerifier.AcceptedTimes | crates/veriai-core/src/verify.rs:349-406 | an accepted document is at most min(skew, 5) seconds ahead of the clock and at most min(skew, age + 5) seconds behind |
| ReceiptVerifier.AcceptedThenRefused | crates/veriai-core/src/verify.rs:535-558 | a receipt accepted by a stateful verifier is refused when it comes again |
| ReceiptVerifier.LegacyContentTypeIsRefused | crates/veriai-core/src/verify.rs:197-206 | a receipt with its content type in the unprotected header only is refused, whatever else it contains and whatever is remembered |
| ReceiptVerifier.PastHeadersExactlyWhen | crates/veriai-core/src/verify.rs:180-216 | a readable receipt of the right size under EdDSA gets past the headers exactly when nothing is critical, the unprotected header is empty and the protected content type is the expected one |
| AcceptedReceipts.PolicyMeans | crates/veriai-core/src/verify.rs:165-558 | a receipt meets the policy exactly when envelope, claims, report, document and times can be read out of it and agree, with every value written out |
| AcceptedReceipts.VerifyInFull | crates/veriai-core/src/verify.rs:128-568 | the answer to any call is valid exactly then; it describes the receipt, lists the fifteen or sixteen checks, and the number is remembered under the hash of the identity message; nothing else changes the state |
| AcceptedReceipts.ReportDataIsBinding | crates/veriai-core/src/verify.rs:466-482 | report data is the SHA-512 of the byte 1, the letters VeriAI-KeyBind-v1 and the 32 bytes of the key |
| AcceptedReceipts.KeysCollide | crates/veriai-core/src/receipt.rs:50-58 | two keys with one report data yield two different inputs with one SHA-512 value |
| AcceptedReceipts.ReturnedMeans | crates/veriai-core/src/receipt.rs:60-130 | the generator hands the provider that report data, the nonce and the key, and its receipt is the signed EdDSA envelope around the ten numbered claims |
| AcceptedReceipts.FingerprintIsIdentity | crates/veriai-core/src/verify.rs:592-607 | an identity is the SHA-256 of PCRs 0, 3 and 4, the module and the SHA-256 of the certificate with its bundle, in this order |
| AcceptedReceipts.SamePlatformSameFingerprint | crates/veriai-core/src/verify.rs:592-607 | documents that agree on these five have one identity, whatever else they hold |
| AcceptedReceipts.PlatformsCollide | crates/veriai-core/src/verify.rs:592-607 | two documents with one identity that differ in one of the five yield two different inputs with one SHA-256 value |
| AcceptedReceipts.FlattenAppend | crates/veriai-core/src/verify.rs:592-597 | the bundle is hashed as the concatenation of its certificates |
| AcceptedReceipts.VersionOfClaims | crates/veriai-core/src/verify.rs:609-619 | the version is what follows the last slash of the SDK identifier, and "1" where there is none |
| AcceptedReceipts.VersionIsUnique | crates/veriai-core/src/verify.rs:609-619 | that determines the version |
| AcceptedReceipts.AllPassedIsCheckList | crates/veriai-core/src/verify.rs:137-163 | the checks of an accepted receipt, by name and in order |
| AcceptedReceipts.DefaultLimits | crates/veriai-core/src/verify.rs:20-28 | by default 65536 bytes, 300 seconds of skew and 300 seconds of age |
| SubmissionHistory.AcceptsStrictMaxima | crates/veriai-core/src/verify.rs:535-558 | of any series of calls a fresh stateful verifier accepts exactly those that are in order and whose number is a strict left-to-right maximum of their identity |
| SubmissionHistory.OneGeneratorStrictMaxima | crates/veriai-core/src/verify.rs:535-558 | of receipts returned by one generator on a stable platform, submitted in any order and any number of times, exactly those are accepted that are timely and exceed all timely ones before |
| SubmissionHistory.OneIdentityStrictMaxima | crates/veriai-core/src/verify.rs:535-558 | of calls of one identity that are all in order, exactly the strict left-to-right maxima |
| SubmissionHistory.CompletionOrderIsAccepted | crates/veriai-core/src/receipt.rs:67-86 | the receipts of a shared generator, submitted in time and in the order in which the calls completed, are all accepted, for every interleaving of the callers |
| SubmissionHistory.AcceptedNumbersIncrease | crates/veriai-core/src/verify.rs:535-558 | accepted numbers of one identity come in strictly increasing order |
| SubmissionHistory.TableMeaning | crates/veriai-core/src/verify.rs:592-607 | after any series of calls the table holds, for each identity, the greatest number it presented in order |
| SubmissionHistory.PolicyWithState | crates/veriai-core/src/verify.rs:535-558 | remembering adds one requirement and changes no other |
| ReceiptGenerator.Generator.Allocate | crates/veriai-core/src/receipt.rs:79-86 | hands out the counter and advances it, except at the greatest u64, where it stays |
| ReceiptGenerator.Generator.GenerateReceipt | crates/veriai-core/src/receipt.rs:60-130 | a failed attestation and exhaustion use no number up; a receipt is the signed envelope of the claims with the number before the call |
| ReceiptGenerator.AcceptedExactlyWhen | crates/veriai-core/src/verify.rs:166-567 | a receipt the generator returned meets the policy exactly when it is small enough, in time, and newer than what the verifier remembers of its platform |
| ReceiptGenerator.GenerateThenVerify | crates/veriai-core/src/receipt.rs:60-130 | generator and verifier run one after the other: the answer is valid exactly then, and the claims carry the number and time of the call |
| ReceiptGenerator.ValidThroughItsLife | crates/veriai-core/src/receipt.rs:60-130 | a receipt the generator returned whose document is within five seconds is valid, with the hashes it was made for, at every moment from its timestamp to the end of its life that meets the skew bound |
| AcceptedReceipts.SomeReceiptIsAccepted | crates/veriai-core/src/receipt.rs:60-130 | the assumptions of these laws can be met: there are libraries, an enclave and a provider under which a receipt is made and accepted |
| ConcurrentGeneration.CompletionOrder | crates/veriai-core/src/receipt.rs:67-86 | over all interleavings, completed receipts carry strictly increasing numbers in completion order and never the greatest u64 |
| ConcurrentGeneration.NumbersConserved | crates/veriai-core/src/receipt.rs:73-91 | every number the counter passed was completed, lost after its allocation, or is in flight; failed attestations and abandoned calls use none up |
| ConcurrentGeneration.ConsecutiveWithoutLoss | crates/veriai-core/src/receipt.rs:67-130 | without calls that fail after the allocation the completed numbers are consecutive |
| ConcurrentGeneration.ExhaustionIsPermanent | crates/veriai-core/src/receipt.rs:79-86 | at the greatest u64 with no number in flight nothing completes any more, whatever the callers do |
| ConcurrentGeneration.LastNumber | crates/veriai-core/src/receipt.rs:79-86 | with a number in flight at exhaustion at most that one completes |
| ConcurrentGeneration.StepKeeps | crates/veriai-core/src/receipt.rs:67-130 | every step keeps mutual exclusion, the order of completed numbers and their count |
| ConcurrentGeneration.WholeCallOutcome | crates/veriai-core/src/receipt.rs:60-130 | one caller by itself moves counter and completions as the generator's method does |
| ConcurrentGeneration.CallsBeginAndEnd | crates/veriai-core/src/receipt.rs:67-130 | a call begins by waiting, may be given up while it waits for lock or provider, and may fail at the provider or, its number lost, when the receipt is signed; its guard then is free |
| CertificateChain.ScanExtensions | crates/veriai-attestation/src/lib.rs:112-142 | the extension loop accepts exactly the lists with readable constraints and no unknown critical extension, and keeps the last values |
| CertificateChain.ValidateCert | crates/veriai-attestation/src/lib.rs:93-190 | accepts exactly the sound leaves, and the sound CAs whose path length admits the CAs below them |
| CertificateChain.WalkChain | crates/veriai-attestation/src/lib.rs:266-341 | accepts exactly when some suffix of the bundle, read from the leaf, is a path of valid, named and signed CAs to its first occurrence of the root, or the bundle is empty and the leaf is the root; otherwise the error is that of the first bad position, or of a root that never occurs |
| CertificateChain.EntriesBeyondRootNeverMatter | crates/veriai-attestation/src/lib.rs:320-323 | what precedes an accepted suffix of the bundle may be exchanged for anything |
| CertificateChain.PathLengthIsUnique | crates/veriai-attestation/src/lib.rs:272-326 | there is only one such suffix |
| CertificateChain.NoPathPast | crates/veriai-attestation/src/lib.rs:272-314 | once a position fails before the root occurred, no suffix of the bundle is a path |
| CertificateChain.CounterMeaning | crates/veriai-attestation/src/lib.rs:180-186 | the root-first counter of RFC 5280 accepts exactly when every constraint admits the certificates after it and there is room for all of them |
| CertificateChain.PathLengthsMatchRfc5280 | crates/veriai-attestation/src/lib.rs:272-278 | the leaf-to-root index test accepts exactly the paths that the root-to-leaf counter of section 6.1.4 (l)-(m) accepts, every certificate counted |
| CertificateChain.VerifyAttestationDoc | crates/veriai-attestation/src/lib.rs:195-344 | a document is accepted exactly when headers, payload, leaf, signature and chain are all in order, and then it is the one in the payload; otherwise the error is that of the first that is not |
| AcceptedDocuments.AcceptedMeans | crates/veriai-attestation/src/lib.rs:195-344 | a document is accepted exactly when its envelope can be read and is signed by a good leaf with a good path, each judged by the last constraints and usage in the certificates' own lists |
| AcceptedDocuments.LeadsByPath | crates/veriai-attestation/src/lib.rs:266-341 | a leaf leads to the root exactly when there is a path of certificates, each a CA with room for those below, signing the one below, with the root at its end only |
| AcceptedDocuments.NoPathTooLong | crates/veriai-attestation/src/lib.rs:180-186 | no certificate of an accepted document stands above more CAs than the last constraints in its own list allow |
| AcceptedDocuments.RoomMatchesRfc5280 | crates/veriai-attestation/src/lib.rs:272-278 | the counter of RFC 5280 over the limits read from these lists accepts exactly the paths with room everywhere |
| AcceptedDocuments.RefusedMeans | crates/veriai-attestation/src/lib.rs:272-341 | a refused chain is good up to some point, and the error is that of what comes there |
| AcceptedDocuments.VerifyInFull | crates/veriai-attestation/src/lib.rs:195-344 | acceptance and every refusal of a document, from its bytes |
| AttestedReceipts.ProviderVerify | crates/veriai-attestation/src/nitro.rs:59-69 | a provider says yes exactly to the documents that are accepted |
| AttestedReceipts.AcceptedReceiptIsAttested | crates/veriai-core/src/verify.rs:288-347 | an accepted receipt carries a document with the caller's nonce and PCR0 and the receipt's key, in an envelope signed by a leaf that leads to one of the caller's roots |
| AttestedReceipts.ChainRequirementMeans | crates/veriai-core/src/verify.rs:326-333 | the chain requirement is met exactly when the document check succeeds for some trusted root |
| RootPem.StrictMeaning | crates/veriai-attestation/src/lib.rs:33-66 | the validator's automaton accepts exactly the texts that are one or more approved certificate blocks and blank lines |
| RootPem.BlocksOfRendered | crates/veriai-attestation/src/lib.rs:39-62 | reading the blocks of a rendered list gives the list back |
| RootPem.RenderedBlocks | crates/veriai-attestation/src/lib.rs:39-62 | whatever reads as a list of blocks is the rendering of that list |
| RootPem.ValidateRootPem | crates/veriai-attestation/src/lib.rs:33-66 | accepts exactly the strictly valid texts, and names the first thing that is wrong with any other |
| RootPem.FaultIsUnique | crates/veriai-attestation/src/lib.rs:39-64 | only one thing is the first that is wrong with a text, and nothing is wrong with a valid one |
| RootPem.FromPem | crates/veriai-core/src/verify.rs:88-125 | collects the certificates the lax automaton finds, and fails on undecodable text and on none at all |
| RootPem.StrictImpliesLax | crates/veriai-attestation/src/lib.rs:33-66 | from every text the validator accepts the loader reads exactly the same non-empty list of certificates, in order and all allowlisted |
| RootPem.LoadTrustedRoots | crates/verifier-service/src/main.rs:523-544 | in a build for real hardware the start-up wiring accepts exactly the validated texts, never fails in the loader after them, and every trusted root is allowlisted; in any other build the loader alone decides |
| Text.LinesOfText | crates/veriai-attestation/src/lib.rs:39-39 | reading the lines of a text gives them back, whether each ends in a line feed or in carriage return and line feed, and with an unterminated last one |
| Text.TextIsLines | crates/veriai-attestation/src/lib.rs:39-39 | every text is made of lines in this way |
| Text.LinesHaveNoLineFeed | crates/veriai-attestation/src/lib.rs:39-39 | no line has a line feed in it |
| Text.WhitespaceIs | crates/veriai-attestation/src/lib.rs:39-39 | trimming removes the 25 white-space characters |
| Text.TrimIsUnique | crates/veriai-attestation/src/lib.rs:39-39 | there is one way to trim a text |
| RootPem.PemTextIsValid | crates/veriai-attestation/src/lib.rs:33-66 | of the texts that consist of certificate blocks exactly those are valid that have at least one, all of whose certificates decode and are allowlisted |
| RootPem.PemTextLoads | crates/veriai-core/src/verify.rs:88-125 | from such a text the loader reads these certificates, in order |
| RootPem.LoadPemText | crates/verifier-service/src/main.rs:523-544 | start-up on such a text: the certificates, or the error of the first block that does not decode or is not allowlisted |
| RootPem.StrayLineIsMalformed | crates/veriai-attestation/src/lib.rs:39-60 | a line between the blocks that does not begin one makes the text malformed, whatever comes after it |
| RootPem.LaxReads | crates/veriai-core/src/verify.rs:98-117 | the loader overlooks anything between blocks, starts afresh when a block is begun again, takes every other line of a block, and yields nothing for a block without an end |
| ClaimCodec.VisitMap | crates/veriai-types/src/lib.rs:113-244 | succeeds exactly when no reserved key occurs, every known entry is well formed and all ten claims are present; the last duplicate wins; failures name the first bad entry or missing claim |
| ClaimCodec.ReadEntry | crates/veriai-types/src/lib.rs:128-208 | one entry overwrites the field of its key, is ignored under an unknown key, and is refused exactly when it is bad |
| ClaimCodec.RoundTrip | crates/veriai-types/src/lib.rs:79-97 | reading what was written gives the claims back |
| ClaimCodec.DecodedMeans | crates/veriai-types/src/lib.rs:113-244 | a map is read as these claims exactly when no entry is bad and the last values under keys 6000 to 6007, 6011 and 6012 are theirs |
| ClaimCodec.EntryOkMeans | crates/veriai-types/src/lib.rs:113-209 | an entry is let through exactly under a 64-bit integer key other than 6008, 6009 and 6010, with a value of the kind its key asks for |
| ClaimCodec.KnownMeans | crates/veriai-types/src/lib.rs:53-63 | the ten keys |
| ClaimCodec.OrderDoesNotMatter | crates/veriai-types/src/lib.rs:128-209 | duplicate-free maps with the same entries in any order read the same |
| ClaimCodec.InsertedEntryDoesNotMatter | crates/veriai-types/src/lib.rs:199-207 | an unknown key anywhere, or a sound entry given again later, changes nothing |
| Completion.ExtractCompletion | crates/veriai-runtime/src/llama_cpp.rs:134-154 | the text between the last prompt's blank line and the first trailer, trimmed |
| Completion.CompletionAfterPrompt | crates/veriai-runtime/src/llama_cpp.rs:134-154 | between the blank line after the last "> " prompt and the first timing or exit line, trimmed |
| Completion.CompletionWithoutBlank | crates/veriai-runtime/src/llama_cpp.rs:134-154 | from the prompt itself when no blank line follows it |
| Completion.CompletionWithoutPrompt | crates/veriai-runtime/src/llama_cpp.rs:134-154 | from the start when there is no prompt |
| Completion.CompletionIsUnique | crates/veriai-runtime/src/llama_cpp.rs:134-154 | that text is determined by the output |
| Completion.CompletionIsClean | crates/veriai-runtime/src/llama_cpp.rs:134-154 | it is a contiguous piece of the output with no prompt, timing or exit marker in it |
| Completion.ExtractionIsIdempotent | crates/veriai-runtime/src/llama_cpp.rs:134-154 | extracting again changes nothing, for every string |

## Left out

- VerifierService.Service.VerifyHandler: requires free guards; waiting for them is covered by the protocol's runs instead.
- VerifierService.Service.AcquireReplayLock: requires a free lock; waiting for it is covered by the protocol's runs and by `ReplayProgress` instead.
- VerifierService.Service.PersistReplayStateOrRollback: does not model a rollback that fails itself (main.rs:647-651); it fails only on a mutex poisoned by a panic while it was held, and nothing that holds it panics (verify.rs:536-558, 573-579, 585-587).
- VerifierService.Service.PersistReplayState: does not tell a table that cannot be read from memory (main.rs:581-583, before a name is used up) from a temporary file that cannot be created; the former too takes a poisoned mutex.
- ClaimCodec.RoundTrip: holds of the claim map as a list of entries; its CBOR bytes are not modelled.
- The service without a state path: the protocol always has one; without it the handler keeps no durable state and takes no guard.
- Several hosts: the advisory lock coordinates one host only.
- Dropping a handler in mid-await when a client disconnects: protocol requests run to completion or crash with their process (callers of the generator may give up).
- Mutex poisoning: only "the operation returns an error".
- The contents of a challenge record while it is written: a record is unreadable, then complete.
- `path.exists()` answering false for a file it may not inspect: existence is taken to be known exactly.
- Wrap-around of the temporary-file counter, a u64 that grows by one per request.
- JSON and hex text of the state file: its contents are a table or torn.
- HTTP routing, status codes, request decoding, environment variables, file permissions and tracing.
- Error messages and check details: errors and checks are told apart by kind and name, and the provider's name in results is not modelled.
- Bytes of COSE and CBOR: envelopes and claim maps are records and entry lists; the encoders and parsers are parameters.
- SHA-2, Ed25519, P-384, X.509 and base64: parameters about which nothing is assumed.
- The ten local options of the claim reader: one record `Fields` with ten options stands for them.
- The NSM driver, the launching of `llama-cli` and prompt formatting: foreign calls and plumbing.
- The WASM wrapper, the command line and the chat demo: thin reuse that would add easy members.
- Unicode: text is a sequence of characters, and white space is what the trimming predicate of `Text` lists.
