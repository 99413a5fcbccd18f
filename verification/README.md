# HybridCipher: verified models of the client's algorithms

This project models the self-contained algorithms of the HybridCipher clients in Dafny and proves what
they promise. Each module follows one part of the program:

- `Introductions`, `SignerTrust`, `Gossip`: which device keys may sign Welcome messages. A device's
  trusted set starts from a seed and grows only through signed introductions; `absorb` follows chains of
  them to a fixpoint. `Gossip` lets any number of devices exchange lists, with a server that may hand out
  anything.
- `CircuitBreaker`: the three-state breaker with a rolling failure window, judged against the whole history
  of calls.
- `RunLength`: the run-length codec, with canonical form and optimality.
- `LineEditor`: the console's line editor, judged by a terminal that renders its echo.
- `EpochIds`, `RecoveryCode`, `Sealing`, `BackupArtifact`, `OrderedMaps`, `RecoveryPlan`, `RecoveryKit`:
  epoch identifiers, recovery codes, sealed backups, the restore plan and the code-only kit.
- `MemoryPool`: the secure buffer pool with its budget and free lists.
- `Entitlement`: Team tokens (JWS Compact Serialization, section 7.1 of RFC 7515) and local write access.
- `Escaping`: HTML escaping and shell quoting, with the readers they must survive.
- `GroupLog`, `LeaderTally`: the membership audit log and the leader election.
- `WorkspaceSelection`: overlapping asynchronous workspace selections, split at every `await`.
- `Wrappers`, `Collections`, `Bytes`, `Hex`, `Base64`: option and result values, facts about sequences and
  sets, byte strings, UTF-8, hexadecimal, base64.

Ed25519, ChaCha20-Poly1305, Argon2, HKDF, SHA-256 and JSON are values of function type, with at most one
assumption each, written as a predicate on that value: what a key signs its public key verifies
(`SignatureScheme.Correct`), what was sealed opens (`Aead.Correct`), what was written reads back
(`Json.Faithful`, `Library.Correct`), and a digest has 32 bytes (`Digest`). Clocks, random bytes, an admin's
identity and the outcome of a signature check on a group update are parameters. `dafny verify
dfyconfig.toml` checks everything.

Where a promise does not hold on every input, the exact condition is proved: `RoundingEndsIff` (the shifting
loop of the pool does not end above 2^63), `BudgetHoldsIff` (the unguarded sum of the pool wraps around, in some
run, exactly when the budget and the largest block reach 2^64; `UnlimitedBudgetWraps` shows one),
`NothingLostIff` (the budget is charged for a block that cannot be laid out), `AcceptedAgainIff` (an update
without changes can be accepted twice), `VoteElectsIff` (a manager records its own vote only, so it elects a
leader only in a group of one), `RecompressIffCanonical` and `PayloadDeterminesFields` (times count to the
microsecond only). The breaker's `failure_count` is the number of remembered failures cut to 32 bits, and exactly
that number whenever the breaker is closed.

## Model

| member | source | states |
|---|---|---|
| Introductions.VouchIsAuthentic | crates/client/src/welcome_signers.rs:31-69 | an introduction made by `new` passes `is_authentic` |
| Introductions.PayloadDeterminesFields | crates/client/src/welcome_signers.rs:43-52 | two introductions have the same signed bytes exactly when group, both keys and the time in microseconds agree |
| SignerTrust.LeastClosureUnique | crates/client/src/welcome_signers.rs:99-101 | there is only one least trusted set |
| SignerTrust.LeastClosureIsReachability | crates/client/src/welcome_signers.rs:99-101 | the least set holds exactly the keys that a chain of introductions leads to |
| SignerTrust.ProgressShrinksPending | crates/client/src/welcome_signers.rs:104-122 | a pass that accepts anything leaves fewer supplied introductions unstored, so `absorb` ends |
| SignerTrust.AbsorbReachesLeastClosure | crates/client/src/welcome_signers.rs:102-123 | on every list, `trusted` becomes the least set that contains the old one and follows the authentic same-group introductions, and exactly those whose introducer is in it are stored |
| SignerTrust.AbsorbIgnoresOrder | crates/client/src/welcome_signers.rs:102-123 | order and repetition of the supplied list change neither the trusted set nor what is stored |
| SignerTrust.AbsorbJoinsPeer | crates/client/src/welcome_signers.rs:102-123 | absorbing the list of a peer whose seed is trusted gives the union of both trusted sets and both lists |
| SignerTrust.ReplayRebuildsTrust | crates/client/src/welcome_signers.rs:81-123 | replaying the stored list on the seed rebuilds the trusted set |
| SignerTrust.IntroduceKeepsValid | crates/client/src/welcome_signers.rs:127-135 | an introduction a device makes keeps the stored list distinct, authentic, same-group and in justification order |
| SignerTrust.GroupSignerTrust.constructor | crates/client/src/welcome_signers.rs:83-93 | a seeded device trusts exactly the given keys |
| SignerTrust.GroupSignerTrust.AcceptInOrder | crates/client/src/welcome_signers.rs:105-117 | one pass over the list, and whether it stored anything |
| SignerTrust.GroupSignerTrust.AbsorbIntroductions | crates/client/src/welcome_signers.rs:102-123 | the loop ends at the least trusted set, keeps the invariant, and reports whether anything changed |
| SignerTrust.GroupSignerTrust.IntroduceKey | crates/client/src/welcome_signers.rs:127-135 | a key is vouched for exactly when it is new and the introducer is trusted, keeping the invariant |
| Gossip.RunKeepsValid | crates/client/src/welcome_signers.rs:72-136 | in every run every device's list stays distinct, authentic, same-group and justified, rebuilds its trusted set, and nothing is forgotten |
| Gossip.TrustIsEarned | crates/client/src/welcome_signers.rs:3-8 | whatever lists are supplied, no device trusts a key outside any set that holds its seed and follows the authentic introductions of its group |
| Gossip.DeliveryMerges | crates/client/src/welcome_signers.rs:102-123 | a delivery makes the receiver know all that the sender knows and adds nothing from nowhere |
| Gossip.BoundedChanges | crates/client/src/welcome_signers.rs:102-123 | in any exchange at most devices times introductions many deliveries change anything |
| Gossip.QuietMeansAgreement | crates/client/src/welcome_signers.rs:102-123 | once the links that connect the devices are quiet, all trust the same keys |
| Gossip.FairExchangeAgrees | crates/client/src/welcome_signers.rs:102-123 | devices that trust each other's seeds agree after more rounds than devices times introductions, whatever the order, if each round uses every link of a connecting set |
| Gossip.AgreementIsReachable | crates/client/src/welcome_signers.rs:102-123 | from every state in which all trust each other's seeds, some exchange makes all devices agree |
| CircuitBreaker.StepKeepsGood | crates/client/src/recovery.rs:181-280 | every call keeps the counters consistent and below the 32-bit limit, on any clock |
| CircuitBreaker.AfterIsGood | crates/client/src/recovery.rs:168-280 | in every run the counters are consistent and `last_failure_time` is the latest failure of the history |
| CircuitBreaker.FailureWindowIsExact | crates/client/src/recovery.rs:199-280 | in every run with a monotone clock, `failure_times` is exactly the failures since the last clearing success inside the window at the latest purge |
| CircuitBreaker.OpensExactlyAtThreshold | crates/client/src/recovery.rs:222-248 | closed means fewer failures than the threshold (or none), and it opens exactly on the failure that reaches it |
| CircuitBreaker.OpenAdmitsOnlyAfterTimeout | crates/client/src/recovery.rs:181-196 | while open, a request passes exactly when `timeout` has gone by since the latest failure and half-open calls are allowed |
| CircuitBreaker.HalfOpenEpisode | crates/client/src/recovery.rs:181-266 | every half-open episode began from open, saw no failure, admitted at most `half_open_max_calls` and saw too few successes to close |
| CircuitBreaker.ClosesExactlyAtSuccessThreshold | crates/client/src/recovery.rs:199-219 | half-open closes exactly on the success that makes `success_threshold` in the episode, and opens exactly on a failure |
| CircuitBreaker.Guard.constructor | crates/client/src/recovery.rs:168-178 | a new breaker is closed with nothing counted |
| CircuitBreaker.Guard.Allow | crates/client/src/recovery.rs:181-196 | the new state and answer, and that an open breaker admits only after the timeout |
| CircuitBreaker.Guard.Succeed | crates/client/src/recovery.rs:199-219 | the new state, without overflow of the success count |
| CircuitBreaker.Guard.Fail | crates/client/src/recovery.rs:222-248 | the new state; a failure never leaves the breaker half-open |
| CircuitBreaker.Guard.Update | crates/client/src/recovery.rs:251-266 | open turns half-open by time, then old failures are purged |
| RunLength.CompressSound | crates/client/src/performance_simple.rs:307-360 | decompressing compressed data gives it back, and compressed data is canonical |
| RunLength.CompressIsOptimal | crates/client/src/performance_simple.rs:307-360 | no shorter input decompresses to the same bytes |
| RunLength.CanonicalIsUnique | crates/client/src/performance_simple.rs:307-335 | a byte string has one canonical encoding |
| RunLength.RecompressIffCanonical | crates/client/src/performance_simple.rs:307-360 | recompressing gives the same pairs exactly when no count is zero and equal neighbours follow only full runs |
| RunLength.CompressData | crates/client/src/performance_simple.rs:307-335 | the loop writes the greedy encoding |
| RunLength.DecompressData | crates/client/src/performance_simple.rs:338-360 | odd input is an error, any even input expands pair by pair |
| LineEditor.EchoShowsLine | apps/desktop/src/terminal-utils.js:145-219 | rendering the echo shows exactly the line left of the cursor and blanks right of it, and leaves the entered or cancelled line above |
| LineEditor.KeyEchoShowsLine | apps/desktop/src/terminal-utils.js:154-215 | the same for one key |
| LineEditor.EditKeepsValid | apps/desktop/src/terminal-utils.js:159-218 | the history stays at most 100 trimmed, nonempty entries with no equal neighbours, and the index none or in range |
| LineEditor.SessionsShowLine | apps/desktop/src/terminal-utils.js:120-219 | both hold in every session from a fresh editor |
| LineEditor.HistoryWalk | apps/desktop/src/terminal-utils.js:195-208 | n presses of Up show the n-th latest entry and n of Down lead back to an empty line |
| LineEditor.TypingAppends | apps/desktop/src/terminal-utils.js:212-215 | printable text is appended to the line |
| LineEditor.RuboutsUndoTyping | apps/desktop/src/terminal-utils.js:179-187 | as many rub-outs take typed text off again |
| LineEditor.TypedLineIsEntered | apps/desktop/src/terminal-utils.js:161-173 | a typed line is submitted trimmed, CR LF counts once, the rest is left over |
| LineEditor.EscapeSequenceLength | apps/desktop/src/terminal-utils.js:129-138 | how far an escape sequence reaches |
| LineEditor.ApplyKey | apps/desktop/src/terminal-utils.js:179-215 | what a key that does not end the line does to the editor and echoes |
| LineEditor.ApplyLineEditorInput | apps/desktop/src/terminal-utils.js:145-219 | the whole loop: editor, echo, submitted line, leftover input and whether to prompt |
| EpochIds.ExactInverse | crates/crypto/src/epoch_id.rs:25-64 | a UUID reads as a number exactly when that number maps to it |
| EpochIds.MappingIsInjective | crates/crypto/src/epoch_id.rs:25-36 | different epochs of a group have different UUIDs |
| RecoveryCode.FormatRecoveryCode | crates/client/src/saved_code_recovery.rs:507-517 | the loop puts a dash before every eighth digit but the first |
| RecoveryCode.ParseFormatted | crates/client/src/saved_code_recovery.rs:507-541 | every 32-byte code that is shown parses back to itself |
| RecoveryCode.ParsesIff | crates/client/src/saved_code_recovery.rs:520-541 | a text parses exactly when, fillers aside, it is the hexadecimal of 32 bytes in either case |
| RecoveryCode.FillersDoNotMatter | crates/client/src/saved_code_recovery.rs:520-526 | dashes and white space anywhere change nothing |
| Base64.RoundTrip | crates/client/src/entitlement.rs:48-57 | decoding inverts encoding at every length, for both alphabets |
| Base64.DecodeIsCanonical | crates/client/src/saved_code_recovery.rs:376-380 | every text that decodes is the encoding of what it decodes to |
| Sealing.SealedOpens | crates/crypto/src/account_protection.rs:45-124 | a sealed blob opens to its text under the same key and additional data |
| BackupArtifact.XorInto | crates/client/src/saved_code_recovery.rs:499-505 | the loop computes the 32-byte XOR, short inputs read as zeros |
| BackupArtifact.SharesRebuildKey | crates/client/src/saved_code_recovery.rs:113-119 | XORing the two shares rebuilds the file key |
| BackupArtifact.NewUnwraps | crates/client/src/saved_code_recovery.rs:108-145 | a new artifact unwraps to the file key under its own secrets |
| BackupArtifact.AppendAllOpens | crates/client/src/saved_code_recovery.rs:230-266 | appends under the right secrets succeed, keep the envelope and add exactly the given entries |
| BackupArtifact.UnlockReturnsAppended | crates/client/src/saved_code_recovery.rs:65-90 | unlocking a new artifact after any appends returns all entries in order, or too many entries above 100,000 |
| BackupArtifact.MergedArtifactUnlocks | crates/client/src/saved_code_recovery.rs:57-63 | entries of two artifacts with one envelope can be put together and still unlock, in order |
| BackupArtifact.SealedBackup.AppendEntriesWithEpochKey | crates/client/src/saved_code_recovery.rs:252-266 | the sealed entries are pushed in order |
| BackupArtifact.SealedBackup.AppendEntries | crates/client/src/saved_code_recovery.rs:230-249 | success appends, failure and the empty list change nothing, the envelope never changes |
| BackupArtifact.SealedBackup.UnlockAll | crates/client/src/saved_code_recovery.rs:65-90 | the loop authenticates every share and entry and stops at the first failure |
| OrderedMaps.NoScanErrorIff | crates/client/src/saved_code_recovery.rs:369-407 | a scan that inserts entries under their keys ends without error exactly when none is at fault and no key has two secrets |
| OrderedMaps.SortKeys | crates/client/src/saved_code_recovery.rs:408-420 | walking a map's keys lists each once, ascending |
| RecoveryPlan.RankIsLexicographic | crates/client/src/saved_code_recovery.rs:368-368 | identities are ordered by group, then number |
| RecoveryPlan.NoErrorIff | crates/client/src/saved_code_recovery.rs:369-407 | the scan finds no error exactly when every entry is sound and no identity has two keys |
| RecoveryPlan.PlanExistsIff | crates/client/src/saved_code_recovery.rs:356-437 | a plan exists exactly when scopes are distinct, the filter is allowed, entries are sound, in scope and consistent, and a selected scope has one |
| RecoveryPlan.AllEpochsAreTheEntries | crates/client/src/saved_code_recovery.rs:392-411 | `all_epochs` is strictly ascending with one item per identity, taken from its first entry |
| RecoveryPlan.PlanPartitionsEpochs | crates/client/src/saved_code_recovery.rs:408-430 | without a filter the groups split `all_epochs` in scope order and every epoch lands in exactly one |
| RecoveryPlan.PlanIgnoresOrder | crates/client/src/saved_code_recovery.rs:369-407 | reordering or repeating entries changes neither success, nor the groups of the plan, nor any number, identifier or key in it, with a filter or without |
| RecoveryPlan.CurrentAvailableIff | crates/client/src/saved_code_recovery.rs:456-466 | a selected scope's current epoch is reported exactly when the scope names one that some entry of the group carries |
| RecoveryPlan.ScanEntries | crates/client/src/saved_code_recovery.rs:369-407 | the loop returns the first error, or the map in which the first entry of an identity wins |
| RecoveryPlan.Drain | crates/client/src/saved_code_recovery.rs:416-424 | a group's epochs are taken in ascending order and every key taken is there |
| RecoveryPlan.PlanGroups | crates/client/src/saved_code_recovery.rs:412-430 | draining one scope after the other gives each selected scope its epochs |
| RecoveryPlan.ValidateForGroups | crates/client/src/saved_code_recovery.rs:356-437 | the plan, or the first error |
| RecoveryKit.ContentsExistIff | crates/client/src/local_recovery_kit.rs:207-256 | entries validate exactly when there are 1 to 10,000 of one vault, sound and consistent |
| RecoveryKit.ContentsAreTheEntries | crates/client/src/local_recovery_kit.rs:215-255 | each validated epoch is that of its number's first entry, and every entry's number and key are there |
| RecoveryKit.ContentsAreSound | crates/client/src/local_recovery_kit.rs:215-255 | validated contents have ascending nonzero numbers and usable keys |
| RecoveryKit.ReencodingIsFixedPoint | crates/client/src/local_recovery_kit.rs:56-71 | re-encoding contents and validating again gives the same contents |
| RecoveryKit.UpgradeRestoresContents | crates/client/src/local_recovery_kit.rs:56-71 | the account's plan for re-encoded contents restores the same numbers, dates and keys |
| RecoveryKit.OpenCreated | crates/client/src/local_recovery_kit.rs:82-137 | opening a created kit with its code returns what validating the sealed entries returns |
| RecoveryKit.KitToAccount | crates/client/src/local_recovery_kit.rs:1-6 | created, opened, re-encoded and planned, a kit gives exactly the plan that its entries would have given directly, and its contents are those entries |
| RecoveryKit.ValidateEntries | crates/client/src/local_recovery_kit.rs:207-256 | the contents, or the first error |
| RecoveryKit.CreateKit | crates/client/src/local_recovery_kit.rs:82-105 | entries are validated, then sealed in order |
| RecoveryKit.OpenKit | crates/client/src/local_recovery_kit.rs:108-137 | the contents, or the first error; failing on the first entry means the code is wrong |
| MemoryPool.RoundingEndsIff | crates/client/src/resource_management.rs:222-232 | the 64-bit shifting loop ends exactly for sizes up to 2^63 |
| MemoryPool.RoundUpToPowerOf2 | crates/client/src/resource_management.rs:222-232 | the result is the least power of two that covers the size |
| MemoryPool.RunsKeepBalance | crates/client/src/resource_management.rs:146-219 | in every run of every pool the free lists are in order, bytes and blocks are conserved up to what the sum wrapped, the counted total is within the budget, and every request was a hit, a miss or a refusal |
| MemoryPool.ConservedModulo | crates/client/src/resource_management.rs:175-187 | in every run of every pool the total on the books is the bytes handed out, pooled or lost, modulo 2^64 |
| MemoryPool.BudgetHoldsIff | crates/client/src/resource_management.rs:175-187 | the bytes themselves stay within the budget in every run exactly when the budget and the largest block that can be asked for add up below 2^64 |
| MemoryPool.OverflowingRun | crates/client/src/resource_management.rs:175-187 | otherwise requests for that block bring 2^64 charged bytes onto books that read zero |
| MemoryPool.UnlimitedBudgetWraps | crates/client/src/resource_management.rs:175-187 | with an unlimited budget the second block of 2^63 bytes wraps the total to zero |
| MemoryPool.NothingLostIff | crates/client/src/resource_management.rs:175-196 | no run loses bytes exactly when every block the pool may have to make can be laid out |
| MemoryPool.LossOtherwise | crates/client/src/resource_management.rs:175-196 | a block that cannot be laid out is charged although it does not exist |
| MemoryPool.AnswersKeepBalance | crates/client/src/resource_management.rs:156-197 | any answer keeps the free lists in order and the counters balanced, also where the sum wraps |
| MemoryPool.ReleaseKeepsBalance | crates/client/src/resource_management.rs:200-213 | so does giving a block back |
| MemoryPool.Pool.constructor | crates/client/src/resource_management.rs:146-153 | an empty pool, for any configuration of `usize` values |
| MemoryPool.Pool.TryReuse | crates/client/src/resource_management.rs:216-219 | the first block of the size's free list, if any |
| MemoryPool.Pool.Allocate | crates/client/src/resource_management.rs:156-197 | too large, reused, out of memory, new or not laid out, with all counters and wrapping sums, keeping the invariant |
| MemoryPool.Pool.Deallocate | crates/client/src/resource_management.rs:200-213 | the block joins the end of its free list, keeping the invariant |
| Entitlement.MachineArithmeticIsExact | crates/client/src/entitlement.rs:123-140 | saturating and checked 64-bit arithmetic changes no verdict |
| Entitlement.VerifySigned | crates/client/src/entitlement.rs:39-142 | verifying a signed token gives back its claims exactly when account, lifetime and time fit |
| Entitlement.ThreeParts | crates/client/src/entitlement.rs:90-95 | the alphabet holds no full stop, so a token splits into exactly three parts |
| Entitlement.VerifiesIff | crates/client/src/entitlement.rs:82-142 | a token verifies with some claims exactly when it is three parts, a header that names a trusted key, the text of those claims and that key's signature of both, and account, lifetime and time fit |
| Entitlement.WriteWindow | crates/client/src/local_write_access.rs:18-93 | writing is allowed never, or exactly from `iat - 300` to before `exp`, at most 30 days and 300 seconds, and reading then and ever after |
| Entitlement.OtherGroupsIgnoreTime | crates/client/src/local_write_access.rs:71-93 | outside known organizations only the role, or the absence of Team data, decides |
| Escaping.EscapeIsOnePass | apps/desktop/src/security-utils.js:2-9 | the five replacements are one pass over the characters |
| Escaping.EscapedTextIsInert | apps/desktop/src/security-utils.js:2-9 | escaped text holds none of the four characters that open tags or end attributes |
| Escaping.HtmlRoundTrip | apps/desktop/src/security-utils.js:2-9 | every reader of character references that knows the five written ones gives back every string |
| Escaping.QuotedIsOneWord | apps/desktop/src/security-utils.js:11-17 | every string, quoted, is one shell word equal to it |
| Escaping.CommandLineRoundTrip | apps/desktop/src/security-utils.js:11-17 | quoted arguments joined by blanks are read back as exactly those arguments |
| GroupLog.FirstRefusal | crates/client/src/group.rs:382-431 | a list of changes is refused exactly when one of them is |
| GroupLog.AcceptedIff | crates/client/src/group.rs:382-431 | a call is accepted exactly when every change is authorized by the members before it and a received update is signed by a member for this group, epoch and place in the log |
| GroupLog.MembersAreReplayedLog | crates/client/src/group.rs:483-504 | in every run the members are the initial members with the log replayed, and the log only grows |
| GroupLog.EachMemberStandsAlone | crates/client/src/group.rs:666-685 | each member stands as the log's own entries about that member say |
| GroupLog.SequenceNumbersIncrease | crates/client/src/group.rs:456-458 | accepted updates that change something carry strictly increasing numbers |
| GroupLog.NeverAcceptedTwice | crates/client/src/group.rs:631-663 | an update that changed something is never accepted again |
| GroupLog.AcceptedAgainIff | crates/client/src/group.rs:631-663 | straight after acceptance an update is accepted again exactly when it changes no member and keeps the epoch |
| GroupLog.GroupManager.constructor | crates/client/src/group.rs:229-252 | the given members and an empty log |
| GroupLog.GroupManager.VerifyChanges | crates/client/src/group.rs:325-327 | the loop returns the first refusal |
| GroupLog.GroupManager.ApplyGroupUpdate | crates/client/src/group.rs:483-504 | changes are applied and logged in order, then the context replaced |
| GroupLog.GroupManager.CreateGroupUpdate | crates/client/src/group.rs:290-379 | a refused update changes nothing, an accepted one is numbered, signed and applied |
| GroupLog.GroupManager.ProcessGroupUpdate | crates/client/src/group.rs:507-581 | signer, signature, group, number, epoch and changes are checked in order; a rejected update changes nothing |
| LeaderTally.WinnerIsUnique | crates/client/src/group.rs:803-823 | there is one winner, whatever order the maps are walked in |
| LeaderTally.MajorityWins | crates/client/src/group.rs:803-823 | more than half of the votes cast win |
| LeaderTally.CountVotes | crates/client/src/group.rs:804-808 | the counts are the tallies |
| LeaderTally.GetWinner | crates/client/src/group.rs:803-823 | with any vote cast, the smallest id among those with the most votes |
| LeaderTally.OnlyOwnVote | crates/client/src/group.rs:688-725 | in every run of one manager at most one vote is recorded, its own |
| LeaderTally.VoteElectsIff | crates/client/src/group.rs:707-725 | so, after any run, a vote elects exactly in a group whose only member is the candidate |
| LeaderTally.LeaderWasAlone | crates/client/src/group.rs:688-725 | whoever leads was voted for as the only member |
| LeaderTally.LeaderElection.InitiateElection | crates/client/src/group.rs:688-704 | votes and leader are cleared unless a leader who is still a member is in office |
| LeaderTally.LeaderElection.Vote | crates/client/src/group.rs:707-725 | a vote for a member is recorded as the manager's own, and a leader elected on a majority of votes, which is never an empty vote |
| WorkspaceSelection.OnlyCurrentCallsWrite | apps/desktop/src/app-team-methods.js:472-529 | a call that resumes changes nothing of the app unless it is current, and then only workspace and context |
| WorkspaceSelection.StaleCallsNeverWrite | apps/desktop/src/app-team-methods.js:460-533 | in every interleaving, a call begun before a later selection or sign-out leaves the whole app as it is whenever it resumes after it |
| WorkspaceSelection.StaleAnswersMightAsWellBeLost | apps/desktop/src/app-team-methods.js:460-533 | in every interleaving, taking out the answers to superseded calls changes neither the app nor any call that still counts |
| WorkspaceSelection.NothingOutlivesSignOut | apps/desktop/src/app-team-methods.js:2613-2633 | in every interleaving, what is shown was fetched by a call begun since the latest sign-out |
| WorkspaceSelection.LiveSelectionInstalls | apps/desktop/src/app-team-methods.js:481-514 | in every interleaving, a selection that is still current when it gets the context it waits for, at once or after switching the group, shows that context and its workspace |
| WorkspaceSelection.FailureIsCaught | apps/desktop/src/app-team-methods.js:480-532 | a live selection that fails, at any wait or check, changes nothing yet and goes on to restore if it preserves |
| WorkspaceSelection.FailedPreservingSelectionRestores | apps/desktop/src/app-team-methods.js:520-532 | in every interleaving, a preserving selection that fails at any wait or check and is still current puts back the workspace and context shown when it began |
| WorkspaceSelection.StepAdvances | apps/desktop/src/app-team-methods.js:627-646 | sequence and generation never fall, a selection and a sign-out raise the sequence, calls keep what they captured |

## Left out

- CircuitBreaker: breakers handed out by the recovery manager, which clones the stored one; retry delays with floats and jitter.
- LineEditor.ApplyLineEditorInput: requires an index that is no larger than the history; beyond it the program takes `undefined` for the line.
- LineEditor: surrogate pairs, wide characters and C1 controls (a character is one cell), line wrapping, and escape sequences split across chunks.
- MemoryPool.Pool.Allocate: requires the size, raised to the minimum, to be at most 2^63, since above it the program's loop does not end; call counters are unbounded; that the system itself may run out of memory, the bytes inside buffers and their zeroing are not modelled.
- MemoryPool: blocks are values with an identity, not heap objects; `current_memory_usage` is bounded, not exact, because reuse does not add to it.
- The I/O scheduler, the thread pool, metrics, logging and configuration.
- BackupArtifact: refusal of wrong secrets and of tampered blobs, which would need assumptions about the cipher beyond opening what was sealed; the base64 file form and its size limits; zeroizing.
- RecoveryPlan: `retain_groups` and `group_readiness`, one filter and one map over the plan.
- RecoveryKit: the file form of kits and its size limits.
- Escaping: an HTML parser's treatment of line ends and NUL before it reads text.
- Entitlement: key lists built into releases; JSON details such as unknown header fields.
- GroupLog: real signature checks, admin rules and leader-term expiry, which are placeholders or depend on hash order and the wall clock; epoch monotonicity of received updates, which the program does not check.
- LeaderTally: the round counter and the end of a leader's term by the clock.
- LeaderTally.GetWinner: requires a vote, since without one the program's `unwrap` fails; `LeaderElection.Vote` calls it only with one.
- WorkspaceSelection: the local vault's own way of setting a context, readiness polling and all rendering.
- Network clients, storage and file access.
