# Ton-teleport periphery: a verified model

This project models the off-chain side of a TON–Bitcoin bridge and proves what it relies on, in
Dafny 4.11. `dafny verify dfyconfig.toml` checks all of it.

The oracle signs Bitcoin transactions with two-round FROST. Its signing service (`SigningSpec`,
`SignService`) must never let one nonce serve two messages, whatever fails; `SigningSafety` proves it
over every run, `SigningProgress` proves exactly when a round nevertheless finishes, `SigningLimits` what
it cannot sign at all. `SigningWorld` puts oracles and coordinator together for one round, `SigningRounds`
for any number of pegouts, rounds and restarts over a network that delivers anything. Its key-ceremony executor (`DkgSpec`, `DkgExecutor`) juggles native
secrets and a private key that is wiped in place; `DkgSafety` proves that it handles them properly and
never says two things in one ceremony, `DkgPersistence` exactly when it announces a key whose secret was
not stored, `DkgCeremony` that n executors complete a ceremony in three ticks each, `DkgProgress` and
`DkgCompletion` that they complete it whatever fails on the way. Below it are the
byte codecs and the encrypted package exchange (`FrostIds`, `DkgPackages`, `DkgCrypto`, `DkgExchange`,
`Commitments`, `Keystore`).

The indexer ships transactions as cells (`Cells`, `TxSerializer`, `TxLayout`), builds the same pegout
transaction the oracles signed (`TxBuilders`), drives one status column from two workers
(`PegoutManager`) and walks an account's history backwards (`TxFetcher`). `Watchdog` is the heartbeat
throttle both programs use. `Wrappers`, `ByteCodec`, `Hex`, `Sorting` and `Threshold` are shared.

Objects that the program updates in place are classes here. Each method is proved equal to a step
function on values (`ensures Abs() == ...`), and the results about runs are lemmas about those step
functions. `SigningMessages` and `DkgMessages` tell what a step sends, and whom its claims name, from
the snapshot, the answers and the artifacts alone, without the step functions. Where Go ranges over a map the method picks any remaining key, so the results hold for every
iteration order.

What the model takes as parameters:

- FROST, NaCl, the PSBT library and the taproot digest are functions or answers handed in with each
  step. Of NaCl it is assumed that opening undoes sealing for matching key pairs, and the 16-byte header
  (`Box.Laws`; `LawsCanBeMet` and `EverySetCanMeet` show that this asks nothing impossible). Native
  secrets are numbers with an allocate, use and free ledger. Of the PSBT library `KeySpends` says what the
  one lemma about signed transactions needs.
- The coordinator contract is not in the repository. `CoordinatorKeepsPromises` states what the signing
  service needs of it: a round with a commitment has a deadline, and the commitments of one pegout and
  deadline are frozen once enough are in. `Orderly` states what the executor needs: deadlines do not go
  back, a finished ceremony stays finished, our index does not change within one. `Accept` is
  a coordinator for each of the two progress proofs; `SigningWorld` proves that the signing one keeps those
  promises, and `SigningRounds` that any coordinator does whose changes are `Changes`.
- `commitmentOf` and `SignsOwn` say what the progress proof takes of FROST: it signs with a nonce exactly when
  the signer's own commitment in the column is the nonce's. `Honours` says what `DkgCompletion` takes of it:
  an answer that is kept is the ceremony's, and honest members are not blamed.
- Clocks, random sources, the file system, RPC answers and exit codes are fields of a tick, a reply or
  an operation.

## Model

| member | source | states |
|---|---|---|
| SigningSafety.NonceSingleUse | oracle/internal/signing/service.go:186-356 | over every run, all calls of SignWithTweak that consume one epoch's nonce for one input carry the same hash, tweak and commitment map |
| SigningSafety.CachedPegoutInvariant | oracle/internal/signing/service.go:88-156 | nonces never stand without commitments, one life of the nonce slot sees one run of Commit, stored shares are the cached pegout's own and of its latest nonces |
| SigningSafety.CachePegoutKeeps | oracle/internal/signing/service.go:110-156 | caching, re-caching and restarting keep every use made so far consistent with what is cached |
| SigningSafety.DoSignKeeps | oracle/internal/signing/service.go:301-356 | signing, or resending stored shares, keeps the invariant when the threshold was seen |
| SigningSafety.DoAggregateKeeps | oracle/internal/signing/service.go:358-386 | dropping the nonces before aggregation keeps the invariant |
| SigningProgress.StartOk | oracle/internal/signing/service.go:44-58 | a round in which nobody has sent anything satisfies the invariant of the progress proof, whatever pegouts, deadlines and session keys of earlier ceremonies each process still holds |
| SigningProgress.StepOk | oracle/internal/signing/service.go:110-263 | a fault-free tick of an enabled oracle, reloading its session key and dropping a stale cache or not, adds exactly one message to the record, any other tick leaves the record alone |
| SigningProgress.SharesExactly | oracle/internal/signing/service.go:339-356 | where FROST signs with a nonce only for its own commitment, shares are made exactly when the cached nonces are those of the commitments on record |
| SigningProgress.SomeoneEnabled | oracle/internal/signing/service.go:258-262 | while the round is not done, some oracle can move it |
| SigningProgress.TurnLowers | oracle/internal/signing/service.go:186-263 | an enabled oracle's turn is never wasted, whoever moves before it |
| SigningProgress.FairRunFinishes | oracle/internal/signing/service.go:186-386 | every fair fault-free run ends with the threshold met and every accepted signer's signatures on record, within as many sweeps as messages are missing |
| SigningProgress.CanAlwaysFinish | oracle/internal/signing/service.go:186-386 | from wherever a round is while every accepted signer still has the nonces of its commitments, or its share on file or on record, some run signs it |
| SigningProgress.FinishesUnlessLost | oracle/internal/signing/service.go:110-356 | with processes that restart, take up another pegout or draw new nonces, a round can be signed before its deadline exactly when no accepted signer has lost its nonces before its share was recorded |
| SigningProgress.LostStay | oracle/internal/signing/service.go:110-356 | no tick of any oracle brings a lost nonce back |
| SigningProgress.ShareArrives | oracle/internal/signing/service.go:564-577 | the share a signer sent for an input is what every oracle aggregates for that signer and input |
| SigningLimits.TooLargeToSign | oracle/internal/helpers.go:173-208 | above 255 inputs a process hands FROST no nonce and sends neither share nor signature, over every run |
| SigningMessages.TickSends | oracle/internal/signing/service.go:186-263 | an expired round sends exactly its reset and forgets the pegout; a live one is cached, keeping nonces, commitments and files unless its deadline changed, and sends exactly what its rounds send |
| SigningMessages.SessionAfter | oracle/internal/signing/service.go:206-215 | with a record to sign, a session key of another ceremony, or none, is replaced by the present one's, unless that cannot be loaded |
| SigningMessages.RoundsSend | oracle/internal/signing/service.go:265-441 | which commitments, shares, signatures and claims the rounds send: exactly these, each with the pegout, the deadline and our index |
| SigningMessages.CommitsExactly | oracle/internal/signing/service.go:443-464 | there are commitments to send exactly when both slots were full, or both empty with our secret at hand and an answer for every input |
| SigningMessages.NoncesGone | oracle/internal/signing/service.go:358-361 | once enough shares are on record, ours among them, the nonces are dropped whatever aggregation brings |
| SigningMessages.CommitsInOrder | oracle/internal/signing/service.go:443-531 | fresh nonces and commitments are those drawn for their own input, side by side |
| SigningMessages.SignsAll | oracle/internal/signing/service.go:339-349 | share i is FROST's answer to nonce, hash, Merkle root and commitments of input i; the culprit is the first failing input's |
| SigningMessages.SignSends | oracle/internal/signing/service.go:301-356 | shares on file are sent again, otherwise the ones made, or a claim on FROST's culprit |
| SigningMessages.AggregatesAll | oracle/internal/signing/service.go:533-577 | signature i is FROST's answer to hash, Merkle root, commitments and shares of input i; the culprit is the first failing input's |
| SigningMessages.AggregateSends | oracle/internal/signing/service.go:358-441 | one signature for each input, in the order of the inputs, or a claim on FROST's culprit; on the disagreement code a claim on the highest sender |
| SigningMessages.StoredForLater | oracle/internal/signing/service.go:331-351 | shares that were made and written are the ones that are read back and sent again |
| SigningWorld.RunKeepsPromises | lib/pkg/ton/coordinator/types.go:136-175 | within one round: a coordinator that stops accepting at the threshold shows every oracle a frozen commitment map, whatever the oracles send |
| SigningWorld.WorldUsesNoncesOnce | oracle/internal/signing/service.go:186-356 | within one round of the closed world, under any faults and any order of ticks, no oracle uses a nonce for two messages |
| SigningRounds.ReceiveChanges | oracle/internal/signing/service.go:232-236 | a coordinator that resets a round once its deadline has passed and sets deadlines a fixed time ahead keeps distinct rounds at distinct deadlines, for every message at every time |
| SigningRounds.RunKeeps | lib/pkg/ton/coordinator/types.go:136-175 | over any events, what was shown of one pegout and deadline at the threshold is one commitment map |
| SigningRounds.NoncesOnceInAllRounds | oracle/internal/signing/service.go:110-356 | over any number of pegouts, resets, new deadlines and restarts, with stale snapshots and forged messages, what a process reads keeps the promises and no nonce serves two messages |
| SignService.SignService.CleanupNonces | oracle/internal/signing/service.go:88-101 | every nonce byte is zero, in place, before the nonces are let go |
| SignService.SignService.CachePegout | oracle/internal/signing/service.go:110-156 | a changed deadline drops nonces, commitments and share files; a new pegout starts empty; on failure nothing changes |
| SignService.SignService.GenerateCommitments | oracle/internal/signing/service.go:443-464 | commits once, refuses a half-empty slot |
| SignService.SignService.Commit | oracle/internal/signing/service.go:515-531 | one nonce and one commitment for each input, or nothing at all |
| SignService.SignService.DoCommit | oracle/internal/signing/service.go:265-299 | goes on exactly when our commitment is accepted and the threshold is met |
| SignService.SignService.SignInput | oracle/internal/signing/service.go:466-513 | FROST is called exactly when column, hash, nonce and secret are all there; a named culprit is claimed |
| SignService.SignService.SignInputs | oracle/internal/signing/service.go:339-349 | stops at the first input that fails, with the calls made so far on record |
| SignService.SignService.DoSign | oracle/internal/signing/service.go:301-356 | stored shares are resent, otherwise made, stored and sent |
| SignService.SignService.AggregateInputs | oracle/internal/signing/service.go:373-382 | all signatures in input order, or the first failure and its culprit, as `AggregatesAll` spells out |
| SignService.FilterSharesByHashIndex | oracle/internal/signing/service.go:566-577 | everybody's share for one input in any map order; re-keyed without loss when no index uses bit 7 |
| SignService.SignService.DoAggregate | oracle/internal/signing/service.go:358-386 | nonces are dropped first, signatures sent once |
| SignService.SignService.SendSignatures | oracle/internal/signing/service.go:421-441 | on the disagreement exit code the highest sender of the signature mask is claimed |
| SignService.SignService.ExecuteClaim | oracle/internal/signing/service.go:585-606 | one claim per validator and round |
| SignService.SignService.ProcessRecord | oracle/internal/signing/service.go:222-262 | mask, expiry and cache checks in this order |
| SignService.SignService.Execute | oracle/internal/signing/service.go:186-263 | a tick of the object is the tick of the specification |
| SignService.SignService.Work | oracle/internal/signing/service.go:60-82 | the ticker loop of a new process never uses a nonce for two messages |
| Keystore.LoadAfterStore | oracle/internal/keystore/keystore.go:80-130 | reading back returns the non-empty shares, or nothing if there are none |
| Keystore.StoreLoadRoundTrip | oracle/internal/keystore/keystore.go:80-130 | the file is faithful exactly for non-empty lists of non-empty shares |
| Keystore.SplitJoin | oracle/internal/keystore/keystore.go:86-128 | splitting undoes joining when no line holds the separator |
| Keystore.FileKeystore.StoreSigningShares | oracle/internal/keystore/keystore.go:121-130 | the file holds the hex lines, or what a failed write makes of it |
| Keystore.FileKeystore.WriteFile | oracle/internal/keystore/keystore.go:186-214 | the file is written in full, cut short, removed or left alone, and no other file is touched |
| Keystore.FileKeystore.LoadSigningShares | oracle/internal/keystore/keystore.go:80-100 | one malformed line spoils the file, blank lines do not |
| Keystore.FileKeystore.Cleanup | oracle/internal/keystore/keystore.go:132-138 | no share file is left |
| Hex.RoundTrip | oracle/internal/keystore/keystore.go:91-126 | decoding undoes encoding |
| Hex.Spelled | oracle/internal/keystore/keystore.go:121-130 | two lower-case digits for each byte, the high one first |
| Hex.DecodesExactly | oracle/internal/keystore/keystore.go:80-100 | decoding takes pairs of digits of either case and nothing else |
| Keystore.DecodesExactly | oracle/internal/keystore/keystore.go:80-100 | a file is read exactly when every line is blank or hexadecimal after trimming |
| Keystore.TrimExactly | oracle/internal/keystore/keystore.go:80-100 | trimming removes the white space at both ends and nothing else |
| FrostIds.FrostRoundTrip | oracle/internal/helpers.go:327-334 | an index survives the trip exactly when its bit 7 is clear |
| FrostIds.IdentifierSpelled | oracle/internal/helpers.go:327-330 | the identifier byte by byte: zeros, then the index high byte first, with bit 7 set |
| FrostIds.FrostCollision | oracle/internal/helpers.go:327-330 | two validators share an identifier exactly when they differ in bit 7 at most |
| FrostIds.ExtractSortedKeysFromMap | oracle/internal/helpers.go:40-49 | the same ascending list for every map order |
| FrostIds.FrostMapExact | oracle/internal/helpers.go:232-240 | without bit 7 in play, re-keying loses and merges nothing |
| FrostIds.ConvertMapToFrostPackages | oracle/internal/helpers.go:232-240 | colliding entries overwrite each other in ascending order |
| Sorting.Sort | oracle/internal/helpers.go:45-47 | a permutation, and under a total order the one sorted list |
| Sorting.SortUnique | oracle/internal/helpers.go:40-49 | a set has one sorted list, so map order cannot show |
| Commitments.CommitmentsRoundTrip | oracle/internal/helpers.go:173-208 | the codec is exact up to 255 records, and above that the wrapped count byte is always rejected |
| Commitments.SerializeCommitments | oracle/internal/helpers.go:173-183 | one wrong length is an error, the count wraps in its byte |
| Commitments.DeserializeCommitments | oracle/internal/helpers.go:185-208 | every record in its place, or the error the first failing check names |
| Commitments.DeserializeInputCommitmentForAll | oracle/internal/helpers.go:210-230 | column i of the validator-by-input matrix, or nothing, in any map order |
| Commitments.ColumnOfMatrix | oracle/internal/helpers.go:173-230 | what all validators wrote for input i is what the signer reads for input i |
| Threshold.ThresholdExactly | oracle/internal/helpers.go:242-248 | two thirds of the set rounded down, never fewer than two, nothing for fewer than two |
| DkgPackages.DeserializeDkgR1 | oracle/internal/helpers.go:51-70 | keys and packages of all senders, or the least malformed one |
| DkgPackages.R1Exactly | oracle/internal/helpers.go:51-70 | 33 bytes or more from everybody, 32 of them the key and the rest the package, or the least sender of fewer |
| DkgPackages.ParseSender | oracle/internal/helpers.go:112-167 | in bounds on every input; succeeds exactly on well-formed packages for the rest of the set |
| DkgPackages.DeserializeDkgR2 | oracle/internal/helpers.go:94-171 | all senders' packages, or the least malformed sender, independent of map order |
| DkgPackages.RecipientsExact | oracle/internal/helpers.go:130-165 | pigeonhole: the recipients are exactly the set without the sender |
| DkgPackages.R2Exact | oracle/internal/helpers.go:94-171 | non-empty input is accepted exactly when every sender is well formed, and then each key set is the set without the sender |
| DkgPackages.SerializeR2Packages | oracle/internal/helpers.go:72-92 | the records in ascending order of recipient, for every map order |
| DkgPackages.SerializedRoundTrip | oracle/internal/helpers.go:72-171 | parsing gives back the map that was serialized |
| DkgPackages.WireSpelled | oracle/internal/helpers.go:72-92 | the wire byte by byte: the count, then index and ciphertext of each recipient, ascending |
| DkgPackages.HonestSenderOk | oracle/internal/helpers.go:72-171 | what this code serializes for the rest of the set is well formed |
| DkgCrypto.EncryptR2Packages | oracle/internal/dkg/dkg_crypto.go:45-96 | one sealed envelope for each recipient, or nothing if a key or a nonce is missing |
| DkgCrypto.JudgeSender | oracle/internal/dkg/dkg_crypto.go:115-166 | the verdict on one sender; only a missing public key is not its fault |
| DkgCrypto.JudgeExactly | oracle/internal/dkg/dkg_crypto.go:115-166 | accepted exactly if it opens to our deadline, the sender and 37 bytes; an envelope of another deadline or sender is its fault |
| DkgCrypto.NothingMissing | oracle/internal/dkg/dkg_crypto.go:117-122 | once round two parses, no member of the set can find its package missing |
| DkgCrypto.DecryptR2Packages | oracle/internal/dkg/dkg_crypto.go:98-173 | every other sender's package, or the verdict on the least sender that is not good |
| DkgCrypto.OpenExactly | oracle/internal/dkg/dkg_crypto.go:98-173 | all other senders are good and their packages come back re-keyed, or the least one that is not is blamed, or its missing key reported |
| DkgCrypto.SealedOpens | oracle/internal/dkg/dkg_crypto.go:15-173 | a sealed package opens, for its addressee, to what went in |
| DkgExchange.HonestNeverBlamed | oracle/internal/helpers.go:51-171 | with the keys read from the published round-one bytes, a validator whose bytes come from this code is the culprit of no parser, and of no decryption at another such validator, whatever all others publish |
| DkgExchange.RoundOneReachesAll | oracle/internal/dkg/dkg_executor.go:241-282 | everybody's key and package reach everybody through the parser |
| DkgExchange.RoundTwoReachesAll | oracle/internal/dkg/dkg_crypto.go:45-173 | n-party exchange: at each member, parsing and decrypting yields exactly the packages made for it, keyed by their makers |
| DkgExchange.PackageArrives | oracle/internal/dkg/dkg_crypto.go:45-173 | between two honest validators the package arrives even among dishonest ones |
| DkgCeremony.SecondTick | oracle/internal/dkg/dkg_executor.go:255-335 | in round two an executor sends exactly the bytes the exchange expects of it |
| DkgCeremony.HeardExact | oracle/internal/dkg/dkg_executor.go:276-283 | DkgPart2 is given the first package of every other member and not our own |
| DkgCeremony.ThirdTick | oracle/internal/dkg/dkg_executor.go:337-452 | in round three, after an honest exchange, nobody is claimed, DkgPart3 is given exactly what the others made for this member, and the result is announced if it was stored |
| DkgCeremony.CeremonyCompletes | oracle/internal/dkg/dkg_executor.go:148-452 | three ticks of every member complete the ceremony: what the snapshots show is what the executors sent, and every key package is held |
| DkgProgress.StepOk | oracle/internal/dkg/dkg_executor.go:148-452 | a tick that may fail anywhere, delivered or not, keeps every member's artifacts in line with the record and undoes nothing; a good one of a member that is wanted adds its package |
| DkgProgress.TurnLowers | oracle/internal/dkg/dkg_executor.go:148-452 | a wanted member's good tick is never wasted, whatever fails before it |
| DkgProgress.FairRunCompletes | oracle/internal/dkg/dkg_executor.go:148-452 | failures and losses only delay a ceremony: as many sweeps with one good tick for each member as packages are missing complete it |
| DkgCompletion.HonoursServes | oracle/internal/dkg/dkg_executor.go:255-441 | whichever ticks of an honest member fail, what it keeps and publishes is what the exchange expects of it |
| DkgCompletion.CompletesDespiteFailures | oracle/internal/dkg/dkg_executor.go:148-452 | honest members complete every ceremony within three sweeps for each member, and the record is what they made for each other |
| DkgCompletion.CanComplete | oracle/internal/dkg/dkg_executor.go:148-452 | from wherever such a ceremony is, some run completes it |
| DkgSafety.ArtifactDiscipline | oracle/internal/dkg/dkg_executor.go:52-75 | in every reachable state r3 implies r2 implies r1, no native secret was used or freed while not allocated, every private key used was the unwiped partner of its public key |
| DkgSafety.NoEquivocation | oracle/internal/dkg/dkg_executor.go:131-452 | two messages of one kind and one ceremony are equal, and its private key belongs to the public key it sent, across failures and retries |
| DkgSafety.ExecuteKeeps | oracle/internal/dkg/dkg_executor.go:148-193 | one step keeps what was sent in line with what is held |
| DkgSafety.LeaksExactly | oracle/internal/dkg/dkg_executor.go:216-317 | a tick loses a native secret exactly when a step fails between allocating it and keeping it |
| DkgSafety.RunLeaksNothing | oracle/internal/dkg/dkg_executor.go:52-63 | a run without such failures holds every secret it allocated |
| DkgSafety.LeakHappens | oracle/internal/dkg/dkg_executor.go:227-231 | a concrete first tick that loses its secret for good |
| DkgPersistence.PersistedBeforeAnnounced | oracle/internal/dkg/dkg_executor.go:337-452 | over every run: every announced key package had its secret stored, if and only if no tick failed to store a result and was followed, before the artifacts were dropped, by a tick that announced it |
| DkgPersistence.ExecuteDecides | oracle/internal/dkg/dkg_executor.go:412-441 | one step: only a failed write leaves a held result unstored, and only announcing it then breaks the order |
| DkgCeremony.AnnouncedUnstored | oracle/internal/dkg/dkg_executor.go:423-441 | in every honest ceremony, a failed write in round three and one more tick announce a key whose secret was never stored |
| DkgCeremony.SecretIsLost | oracle/internal/dkg/dkg_executor.go:423-441 | such a run of four ticks from a fresh process |
| DkgMessages.StepSends | oracle/internal/dkg/dkg_executor.go:131-482 | over every step: which packages and which claims are sent, exactly these, each with the deadline and our index |
| DkgMessages.SessionKept | oracle/internal/dkg/dkg_executor.go:126-163 | a later deadline starts a ceremony with a session key of its own, once one can be made; a finished one ends it |
| DkgMessages.R2Sends | oracle/internal/dkg/dkg_executor.go:255-335 | a claim in round two names the parser's culprit, or else FROST's, and every such culprit is claimed once |
| DkgMessages.R3Sends | oracle/internal/dkg/dkg_executor.go:337-452 | a claim in round three names the culprit of the parsers, of opening or of FROST, or the lowest announcer below the signer count when the coordinator disagrees |
| DkgMessages.R1Made | oracle/internal/dkg/dkg_executor.go:216-240 | round one keeps a package and a key pair, or nothing |
| DkgMessages.R2Made | oracle/internal/dkg/dkg_executor.go:270-317 | round two keeps what FROST made of the others' packages, sealed with the keys that came with them, or nothing |
| DkgMessages.R3Made | oracle/internal/dkg/dkg_executor.go:352-422 | round three keeps FROST's result of the others' first packages and of those opened, or nothing |
| DkgMessages.FinishedLeavesNothing | oracle/internal/dkg/dkg_executor.go:52-63 | over every run, a finished ceremony leaves no artifact, no session key and no secret that was held |
| DkgMessages.HonestNeverClaimed | oracle/internal/dkg/dkg_executor.go:255-473 | an executor whose key is on record never sends a claim naming an honest member, unless FROST or the coordinator blames it |
| DkgMessages.WipedOnceHeld | oracle/internal/dkg/dkg_executor.go:418-424 | over every run: while a result is held, every byte of the private key is zero |
| DkgExecutor.Executor.SafeCleanPrivateX25519 | oracle/internal/dkg/dkg_executor.go:65-71 | every byte of the private key is zero, in place |
| DkgExecutor.Executor.Cleanup | oracle/internal/dkg/dkg_executor.go:52-129 | both secrets are freed if held, the key is wiped, nothing is kept |
| DkgExecutor.Executor.OnStartNewDKG | oracle/internal/dkg/dkg_executor.go:131-146 | the new deadline is taken only with a session key |
| DkgExecutor.Executor.ExecuteR1 | oracle/internal/dkg/dkg_executor.go:195-253 | artifacts are made once and sent until they are on record |
| DkgExecutor.Executor.ExecuteR2 | oracle/internal/dkg/dkg_executor.go:255-335 | DkgPart2 gets the others' packages; what it makes is sent again and again; the parser's or FROST's culprit is claimed |
| DkgExecutor.Executor.ExecuteR3 | oracle/internal/dkg/dkg_executor.go:337-452 | DkgPart3 gets the others' first packages and the opened ones; all three kinds of culprit are claimed; the key is wiped once the result is held, and the result announced once stored or already held |
| DkgExecutor.Executor.ClaimCulpritByR3Mask | oracle/internal/dkg/dkg_executor.go:475-482 | the lowest sender of the mask below the signer count |
| DkgExecutor.Executor.ExecuteClaim | oracle/internal/dkg/dkg_executor.go:454-473 | one claim per validator and ceremony, naming the culprit as `StepSends` spells out |
| DkgExecutor.Executor.Execute | oracle/internal/dkg/dkg_executor.go:148-193 | a call of the object is the step of the specification |
| DkgExecutor.Executor.Work | oracle/internal/dkg/dkg_executor.go:106-124 | the channel loop of a new process keeps both disciplines |
| Cells.SplitBytesToCells | lib/pkg/utils/bytes.go:25-63 | for every size from one on, the one packed chain of the buffer |
| Cells.SplitBufferToCells | lib/pkg/utils/tx_serializer.go:120-160 | the identical chain; sizes below one mean one |
| Cells.WriteSlicesToBuffer | lib/pkg/utils/io.go:5-12 | the bytes along the chain |
| Cells.ChainFlattens | lib/pkg/utils/bytes.go:25-63 | flattening undoes splitting, every cell but the last is full, no cell exceeds the capacity |
| Cells.ChainIsTheOnlyOne | lib/pkg/utils/tx_serializer.go:120-160 | a packed chain that flattens to the buffer is the chain, and conversely |
| Cells.CapacityBounds | lib/pkg/utils/bytes.go:41 | the capacity is the largest multiple of the size that fits in 127 bytes |
| Cells.LinkBackwards | lib/pkg/utils/tx_serializer.go:154-159 | linking from last to first keeps the chunks in order |
| Cells.StoreHashesToCell | lib/pkg/ton/teleportcontract/teleport_contract.go:249-277 | terminates from every builder with a free reference, and adds what fits before it nests |
| Cells.HashesComeBack | lib/pkg/ton/teleportcontract/teleport_contract.go:249-277 | from any builder: it takes exactly the hashes that fit in its 127 bytes, its references stay, and its data followed by the one new reference is the old data and the list in order |
| Cells.HashChain | lib/pkg/ton/teleportcontract/teleport_contract.go:249-277 | from an empty builder the list flattens back in order, three hashes to a cell |
| TxSerializer.ReadEntries | lib/pkg/utils/tx_serializer.go:78-99 | where the list ends, with Go's wrapping arithmetic, on every byte string |
| TxSerializer.ReadTxIn | lib/pkg/utils/tx_serializer.go:73-87 | the input section as a slice of the buffer |
| TxSerializer.ReadTxOut | lib/pkg/utils/tx_serializer.go:89-102 | the output section as a slice of the buffer |
| TxSerializer.ReadWitnesses | lib/pkg/utils/tx_serializer.go:47-56 | past one stack for each input |
| TxSerializer.ReadInputs | lib/pkg/utils/tx_serializer.go:25-35 | what looks like no inputs may be a marker |
| TxSerializer.SerializeTransaction | lib/pkg/utils/tx_serializer.go:12-71 | equals the serializer on the decoded bytes; bad hex is an error |
| TxSerializer.WrapOnce | lib/pkg/utils/tx_serializer.go:79-83 | wrapping at each addition, as Go does, or once at the end gives one offset |
| TxLayout.NothingIsLost | lib/pkg/utils/tx_serializer.go:12-71 | on every input: if there is a result, root and flattened references hold exactly the bytes, in order |
| TxLayout.SplitsWellFormed | lib/pkg/utils/tx_serializer.go:12-118 | a well-formed transaction, legacy or segwit, becomes exactly its sections; with bytes after it, it is refused |
| TxLayout.SplitsExactly | lib/pkg/utils/tx_serializer.go:25-35 | this holds exactly when a legacy transaction without inputs does not look like a marker |
| TxLayout.ReadsSize | lib/pkg/utils/tx_serializer.go:104-118 | all four widths are read back |
| TxLayout.SkipsEntries | lib/pkg/utils/tx_serializer.go:78-84 | the parser steps over an encoded list of any length |
| TxBuilders.ToSortedSlice | lib/pkg/ton/pegoutcontract/tx_parts_inputs.go:71-87 | fails exactly on a key that is no hex; on parsed keys one list for every map order |
| TxBuilders.ParsedIsCanonical | lib/pkg/ton/pegoutcontract/tx_parts_inputs.go:31-69 | parsed maps are canonical and stand for the dictionary they came from |
| TxBuilders.BuildTaprootSigningHashes | lib/pkg/bitcoin/signing_hash.go:14-66 | one digest for each input of the unsigned transaction, an error on any bad key |
| TxBuilders.BuildTx | lib/pkg/bitcoin/signing_hash.go:18-46 | version, inputs with hash, index and sequence, outputs with amount and script, spent outputs; an error on a hash that is not 32 bytes |
| TxBuilders.SortTxIDs | indexer/internal/pegoutmanager/pegout_manager.go:399-410 | the other sort reaches the same order |
| TxBuilders.BuildPegoutTx | indexer/internal/pegoutmanager/pegout_manager.go:387-458 | the same unsigned transaction with the stored signatures, an error if one is short or a key is bad |
| TxBuilders.AddInputs | indexer/internal/pegoutmanager/pegout_manager.go:412-446 | input i gets the last 64 bytes of signature i |
| TxBuilders.SignaturesLand | indexer/internal/pegoutmanager/pegout_manager.go:440-458 | signatures over the oracle's digests make the indexer's transaction valid on every input, for every extractor that keeps the transaction and puts a key spend's signature in the witness |
| TxBuilders.SpendsTheDictionary | lib/pkg/bitcoin/signing_hash.go:14-46 | every entry is spent once, in ascending order of hash, replaceably, and the digests commit to its amount and script; every receiver is paid its amount, in order |
| TxBuilders.PacketExactly | indexer/internal/pegoutmanager/pegout_manager.go:387-458 | the packet holds the oracles' transaction and for each input what it spends, the internal key, the Merkle root and the last 64 bytes of the signature under its decimal key; there is one exactly when every input has such a signature |
| TxBuilders.DecimalIsItoa | indexer/internal/pegoutmanager/pegout_manager.go:440 | the key of position i is its decimal text, and there is one such text |
| PegoutManager.StatusMonotone | indexer/internal/pegoutmanager/pegout_manager.go:109-315 | under every interleaving a status only goes forward, one at a time, and raw transaction and id are written once |
| PegoutManager.StepKeeps | indexer/internal/pegoutmanager/pegout_manager.go:264-385 | what each atomic step may change in the table and the exclusions |
| PegoutManager.StepWrites | indexer/internal/pegoutmanager/pegout_manager.go:264-385 | every step writes exactly: hex and id on the way to SIGNED, the block hash on the way to CONFIRMED, an exclusion when a handler gives up, and nothing else |
| PegoutManager.SignedWithWhatWasBuilt | indexer/internal/pegoutmanager/pegout_manager.go:264-315 | over every run a row that left SIGNING holds the hex and the id of what its handler built |
| PegoutManager.EffectExactly | indexer/internal/pegoutmanager/pegout_manager.go:317-385 | a signed pegout is confirmed, excluded or left alone on exactly these answers |
| PegoutManager.HandledHaveAddresses | indexer/internal/pegoutmanager/pegout_manager.go:116-121 | no row without an address is ever handled, and a query returns at most 1024 |
| PegoutManager.SnapshotIsCurrent | indexer/internal/pegoutmanager/pegout_manager.go:317-343 | what a handler looks up and sends is what the row still holds |
| PegoutManager.ExcludedForGood | indexer/internal/pegoutmanager/pegout_manager.go:226-235 | no cycle after the exclusion processes the pegout |
| PegoutManager.ExcludedRowStays | indexer/internal/pegoutmanager/pegout_manager.go:367-375 | an excluded row never changes again |
| PegoutManager.SecondLookFindsNothing | indexer/internal/pegoutmanager/pegout_manager.go:197-235 | the second check of the exclusions never removes anything |
| PegoutManager.Manager.HandleSigningPegout | indexer/internal/pegoutmanager/pegout_manager.go:264-315 | the row is written only when every step before it succeeds, the hex as raw transaction and the id as id |
| PegoutManager.Manager.HandleSignedPegout | indexer/internal/pegoutmanager/pegout_manager.go:317-385 | confirmed if known, excluded if hopeless and older than two weeks, untouched otherwise |
| PegoutManager.Manager.ProcessList | indexer/internal/pegoutmanager/pegout_manager.go:226-235 | the query result without the exclusions, in order |
| TxFetcher.CompareExact | lib/pkg/ton/tonclient/tx_fetcher.go:100-102 | the wrapping comparator has the right sign exactly within 2^63 |
| TxFetcher.SortedPage | lib/pkg/ton/tonclient/tx_fetcher.go:100-113 | a page that ends at the cursor, in any order, sorts to the next stretch of the history |
| TxFetcher.TxFetcher.TakePage | lib/pkg/ton/tonclient/tx_fetcher.go:100-113 | emits the page and moves the cursor to what comes before it |
| TxFetcher.TxFetcher.Emit | lib/pkg/ton/tonclient/tx_fetcher.go:105-129 | a cancelled reader has taken a prefix |
| TxFetcher.TxFetcher.Work | lib/pkg/ton/tonclient/tx_fetcher.go:73-116 | the history backwards from the start, nothing twice, nothing skipped, all of it on a normal end, and every tick but a failure makes progress |
| Watchdog.CallsApart | lib/pkg/watchdog/watchdog.go:178-241 | wherever a run is cut and whatever scans follow, callbacks for one id are more than a fire period apart, if and only if no Watch read the clock before a callback of its id that is not yet a fire period past |
| Watchdog.RunThrottled | lib/pkg/watchdog/watchdog.go:214-241 | what the throttle keeps over every such run, even across watching again |
| Watchdog.SpacedOutInOrder | lib/pkg/watchdog/watchdog.go:233-241 | being spaced out as a multiset is being spaced out in the order of the calls, no two of which may then be equal |
| Watchdog.StaleWatchFiresTwice | lib/pkg/watchdog/watchdog.go:178-192 | a concrete run in which a Watch that read the clock before a scan it waited for fires twice |
| Watchdog.NeverReported | lib/pkg/watchdog/watchdog.go:202-231 | a target with a recent beat at every scan is never reported |
| Watchdog.LateIsReported | lib/pkg/watchdog/watchdog.go:214-241 | over every run: a scan calls back once, with the lateness, for each target that is watched, silent for longer than its period, and neither watched nor called back within the fire period, and for no other |
| Watchdog.TargetIsItsHistory | lib/pkg/watchdog/watchdog.go:178-248 | what is known of a target is its last period, its last beat, and its last Watch or callback |
| Watchdog.SelfHeartbeat | lib/pkg/watchdog/watchdog.go:243-247 | a scan renews a self heartbeat that is too old and leaves any other |
| Watchdog.LastBeatCounts | lib/pkg/watchdog/watchdog.go:178-212 | the recorded heartbeat is the latest, whether by Watch or by Heartbeat |
| Watchdog.Dog.Overdue | lib/pkg/watchdog/watchdog.go:222-231 | lists exactly the due targets, each once, in any map order |
| Watchdog.Dog.ScanTargets | lib/pkg/watchdog/watchdog.go:214-248 | calls back exactly once for each due target and remembers when |
| Watchdog.Dog.WatchTarget | lib/pkg/watchdog/watchdog.go:178-192 | watching again restarts both the heartbeat and the throttle |
| Watchdog.Dog.UnwatchTarget | lib/pkg/watchdog/watchdog.go:194-200 | the target is forgotten, the calls made are not |
| Watchdog.Dog.Beat | lib/pkg/watchdog/watchdog.go:202-212 | refreshes a watched target only |

## Left out

- CalcMinSigners: in integers; the original computes in doubles, whose rounding cannot reach the next integer for 16-bit operands.
- SignaturesLand: the taproot digest, the signature check and the extractor are parameters; `KeySpends` is all that is assumed of extraction.
- CachedPegoutInvariant: says nothing about zeroing when a cache entry is replaced or cleared, because the original only zeroes in `cleanupNonces`.
- ArtifactDiscipline: the key pair generator is assumed to return matching keys.
- CallsApart: scans, which one goroutine makes, are taken to read the clock in order.
- StatusMonotone: one process; a second indexer on the same table, or updates that a killed process left in flight, are not modelled.
- StoreLoadRoundTrip: `strings.TrimSpace` is modelled on ASCII white space, which is all that can occur around hex digits written by this code.
- SerializeTransaction: reading past the length of the buffer is one outcome, `OutOfRange`; Go panics there, or reads within the slice's capacity and then panics or reports trailing bytes.
- SplitBytesToCells: the cell count is computed in integers, not through doubles.
- ExecuteR2: the packages FROST makes are taken to carry the identifiers it was given (`OurPackages`).
- AggregateInputs: FROST's maps are by validator; `FilterSharesByHashIndex` says what re-keying them gives when no index uses bit 7.
- Execute: `FindValidatorIdx` is a parameter, so its choice among equal session keys is not modelled.
- FROST, secp256k1, NaCl, Ed25519, tap hashes and the Rust bridge: foreign code behind parameters.
- The coordinator, teleport and pegout contracts: not in the repository; only hypotheses about them.
- Masks are sets of bit positions; the big integers behind them are not modelled.
- RPC and lite-server clients, SQL, GraphQL, HTTP, Prometheus, configuration, logging, signal handling: plumbing.
- Mint service, batch sender, block relayer, metrics, TTL cache: not modelled.
- FinishesUnlessLost: the time until the deadline is not measured; what follows an expired round is the next round.
- StoreSigningShares: a share file cut short can later be read back as other shares than were written, since the original ignores the failed write; nothing is claimed of what is then resent.
- AggregateFrom: that FROST can aggregate the shares on record is part of a fault-free tick, whatever the shares.
- CompletesDespiteFailures: an executor that restarts within a ceremony has lost its artifacts and is not covered; nor is whether the announced secrets were stored, which is `PersistedBeforeAnnounced`.
- Restarts: each run is of one process, except that the signing service starts with leftover share files, the pegout manager with any table, and a round of `SigningProgress` and any run of `SigningRounds` with processes that may restart before any step.
