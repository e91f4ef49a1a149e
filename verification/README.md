# A Dafny model of the provably fair card game backend

The repository is a Go backend for a provably fair three-player card game, with TypeScript clients. This
project models the parts of it whose correctness is not visible in any one function, and proves what they
promise: the deterministic shuffle, the durable command ledger and the client that resends into it, the
room and hand aggregates and the transactions that join them, the live game directory, the timeout
supervisor, the auto-dealer, the replay cache, the realtime hub, and the byte encodings that Go and
TypeScript build independently.

Check it with `dafny verify dfyconfig.toml`.

## How the model is laid out

Code that computes is a function. Code that changes things step by step is a class or a loop, proved equal
to such a function; what the functions mean is then proved about them without their bodies - which seat changes, what
an error says, where a stored value comes from - and so are the theorems about runs. The transaction layer is the one
exception: a transaction is a value that is kept or dropped, so handlers are functions from store to store, and
`Service.DurableService` assigns its store only where the original commits.

| part | modules |
|---|---|
| deterministic randomness | `RandomStream`, `Sampling`, `Shuffle`, `Uniformity` |
| canonical encodings | `Base64Url`, `Canonical`, `RevealCodec`, `Identity`, `Fairness`, `ReadBack` |
| aggregates | `Domain`, `RoomModel`, `RoomAggregate`, `RoomMeaning`, `HandModel`, `HandLemmas`, `HandAggregate`, `HandMeaning`, `Quicknet`, `SetupProvider` |
| transactions and ledger | `Store`, `Handlers`, `Service`, `Effects`, `Acceptance`, `Outbox`, `StoreInvariant`, `Ledger`, `Reachable`, `Verdict`, `Admission`, `Rejections`, `StoredHands`, `StoredRooms`, `Provenance` |
| client and network | `RoomClient`, `EndToEnd`, `Settling` |
| live games | `LiveGame`, `LiveDirectory`, `Finalization`, `Compensation` |
| timers and workers | `Supervisor`, `ExpiryRace`, `LiveWriters`, `AutoDealer`, `DealerDrive` |
| in-memory indexes | `ReplayCache`, `Hub` |
| shared | `Bytes`, `Division`, `Sizes`, `Text` |

What the original obtains from outside is a parameter: HMAC, SHA-256 and the contribution hash are arbitrary
functions; clock readings, new identifiers, opened envelopes, prepared setups, the verified beacon, the errors of
these and the answers of the archive are fields of `Handlers.Environment` or arguments. Two assumptions are named
where they are needed: `HandModel.NeverZero` (no contribution hashes to 32 zero bytes) and `Shuffle.ServesDown` (each
draw of the shuffle, from where the one before it ended, comes to a kept candidate).

A run in these theorems is any sequence of steps by anybody: commands of any kind in any order and number, by any
actor, with any answers of the environment; in `LiveWriters` also deals, recoveries, take-overs and live actions at
any number of processes.

## What was found

Each is a theorem with its exact condition.

- "A contribution is allowed" and "the dealer may abort" never hold together, and one of them holds at every
  instant exactly unless a quicknet plan names its round in a form other than the canonical decimal
  (`Quicknet.ExactlyOneSide`). The repository's own provider only ever names canonical rounds, as long as there are
  any, so every stored hand that it set up has exactly one side at every instant
  (`SetupProvider.FutureRoundIsCanonicalIff`, `StoredHands.StoredHandsHaveOneSide`). The rest is about other setup
  providers: the hand's own validation takes a round like "01" too, and such a hand could neither be contributed to
  nor be aborted by the dealer (`SetupProvider.LeadingZeroCanBeCreated`), and would stop the dealer's page in front of
  the hands behind it (`AutoDealer.OnlyStrangeRoundsStopThePage`).
- `Room.SetReady` keeps a room loadable exactly when its actor is named; the service refuses blank actors
  before any domain call (`RoomModel.ReadyOnEmptySeat`).
- The two ticket encoders agree on bytes wherever both encode. The client refuses more exactly for an upper-case
  commitment or a number beyond 2^53 - 1, the server exactly for an unusable seat or key
  (`RevealCodec.WhoRefusesWhat`).
- A second custodied contribution of a seat is told that the phase is wrong, not that the contribution is a duplicate
  (`Rejections.HandRejectionTellsWhy`).
- `LiveDirectory.Abort` does not look at the quarantine (`LiveGame.AbortIgnoresQuarantine`).
- An expiry that carries live version 0 is not guarded: it ends a hand that may end whatever live actions have
  committed (`ExpiryRace.ZeroVersionIsUnguarded`). Timers are armed with version 0 after a recovery, yet the
  supervisor's sweeps never issue such an expiry (`ExpiryRace.PendingExpiriesAreGuarded`).
- Only a guarded expiry fences the writer of a hand. After any other ending an action that had passed the phase check
  can still be written (`LiveWriters.AdmittedActionMayFollow`), but only by a place admitted before the ending and
  only until the row's next fence (`LiveWriters.OnlyAdmittedActionsFollow`).
- A replay-cache key joins its parts with zero bytes, which validation does not exclude from them. A key determines
  its request exactly when none of the three parts holds a zero byte (`ReplayCache.KeyDeterminesRequestIff`); for any
  actor there are two different requests that pass validation and share a key
  (`ReplayCache.SeparatorsCanShareKey`). They share an entry and are told apart by their digests only.
- A hub connection that registered a second time would break the topic index exactly if it still lists topics
  (`Hub.ReturningConnectionMustListNothing`). The repository never registers one twice, as each gets a fresh
  identifier, so this is about other users of the hub.
- A live game exists for an undealt hand exactly when a started deal neither commits nor can be taken back
  (`Compensation.LeakIffRollbackFails`).

## Model

| member | source | states |
|---|---|---|
| RandomStream.ReadsAreChunkIndependent | server/business/gamecore/random.go:45-59 | any split of reads returns the bytes of one long read, across counter wrap too |
| RandomStream.Stream.New | server/business/gamecore/random.go:28-33 | exactly the zero seed is refused; a new stream is at byte 0 of the HMAC blocks of its seed |
| RandomStream.Stream.Fill | server/business/gamecore/random.go:35-43 | moves to the start of the next counter's block without losing or repeating a byte |
| RandomStream.Stream.Read | server/business/gamecore/random.go:45-59 | fills the whole target with the next bytes, byte k being byte k mod 32 of block k div 32 |
| RandomStream.Stream.Uint64 | server/business/gamecore/random.go:61-65 | the next eight bytes, big-endian |
| Uniformity.StreamIsItsBlocks | server/business/gamecore/random.go:35-59 | from its beginning on a stream gives the blocks of the counters 0, 1, 2, ... one after the other |
| Uniformity.WordIsBigEndian | server/business/gamecore/random.go:61-65 | a word's bytes are the next eight of the stream, the highest first |
| Sampling.ThresholdIsRemainder | server/business/gamecore/random.go:74-74 | the wrapped computation of the threshold is 2^64 mod bound, and is below 2^63 |
| Sampling.EveryResidueEquallyLikely | server/business/gamecore/random.go:67-81 | each residue below the bound has exactly floor(2^64 / bound) kept candidates |
| Sampling.RejectedAreAMinority | server/business/gamecore/random.go:74-79 | exactly 2^64 mod bound candidates are drawn again, fewer than half |
| Sampling.Uniform | server/business/gamecore/random.go:67-81 | the first kept draw reduced, consuming exactly the draws up to it; only bound zero is refused |
| Uniformity.AnswerIsFirstKept | server/business/gamecore/random.go:67-81 | the answer is congruent to the first draw that is at least 2^64 mod bound, and nothing behind that draw is consumed |
| Uniformity.AnswersAtOnceIff | server/business/gamecore/random.go:67-81 | a word makes the operation answer at once, on every stream that goes on with it, exactly when it is kept, and the answer is its residue |
| Uniformity.EveryAnswerEquallyLikely | server/business/gamecore/random.go:67-81 | for each answer below the bound exactly floor(2^64 / bound) words make the operation give it at once, on whatever stream |
| Shuffle.ShuffleGivesPermutation | server/business/gamecore/random.go:90-101 | every vector of choices c_i in [0,i] gives a permutation of 0..n-1 |
| Shuffle.ShuffleIsInjective | server/business/gamecore/random.go:94-100 | distinct choice vectors give distinct permutations |
| Shuffle.ShuffleReachesEveryPermutation | server/business/gamecore/random.go:94-100 | every permutation comes from a choice vector, which is computed |
| Shuffle.ShuffleIsUndone | server/business/gamecore/random.go:94-100 | that vector is the only one: recovering choices undoes the shuffle |
| Shuffle.Permutation | server/business/gamecore/random.go:83-102 | the swap loop on the array is the shuffle of the choices drawn from the stream, one after the other; counts outside 1..max are refused without drawing |
| Shuffle.SwapDown | server/business/gamecore/random.go:94-100 | the loop from the last index down performs exactly the swaps of the drawn choices |
| Uniformity.ShufflingIsPicking | server/business/gamecore/random.go:94-100 | the swaps are the same as picking all items from a pool in which the last item takes the place of the one picked |
| Uniformity.EveryPermutationEquallyLikely | server/business/gamecore/random.go:83-102 | for each permutation of n items the same number of words, the product of floor(2^64 / i) for i from 2 to n, make it the outcome with no draw made again, on whatever stream |
| Base64Url.EncodeBase64Url | clients/packages/secure-envelope/src/base64url.ts:3-16 | the loop yields the RFC 4648 section 5 digits of the bytes, without padding |
| Base64Url.DecodeBase64Url | clients/packages/secure-envelope/src/base64url.ts:18-40 | accepts exactly the encodings of non-empty byte strings and returns the encoded bytes |
| Base64Url.RoundTrip | clients/packages/secure-envelope/src/base64url.ts:3-40 | decode(encode(x)) = x for every non-empty x |
| Base64Url.Accumulate | clients/packages/secure-envelope/src/base64url.ts:22-35 | the decoding loop with its never-masked 32-bit buffer writes exactly the whole bytes of the digits, in bounds |
| Base64Url.OctetsUndoSextets | clients/packages/secure-envelope/src/base64url.ts:5-14 | cutting bytes into six-bit digits and joining them again is the identity |
| Base64Url.EncodingIsInjective | clients/packages/secure-envelope/src/base64url.ts:3-16 | different byte strings have different encodings |
| Base64Url.NeverMaskedIsHarmless | clients/packages/secure-envelope/src/base64url.ts:26-35 | wrapping at 32 bits gives the bytes of an unbounded-integer decoder, for input of any length |
| Base64Url.UnboundedYieldsOctets | clients/packages/secure-envelope/src/base64url.ts:26-35 | the unbounded decoder gives exactly the whole bytes of its digits |
| Canonical.FlattenIsInjective | server/business/doudizhu/application/reveal_codec.go:162-181 | written fields of one format are determined by their bytes |
| Canonical.FirstStringSeparates | server/business/doudizhu/application/reveal_codec.go:162-171 | encodings that begin with different strings differ, whatever follows |
| Canonical.Buffer.WriteString | server/business/doudizhu/application/reveal_codec.go:162-171 | appends one length-prefixed field |
| Canonical.Buffer.WriteInt64 | server/business/doudizhu/application/reveal_codec.go:173-181 | appends one fixed-width two's-complement field |
| RevealCodec.BuildRevealAAD | server/business/doudizhu/application/reveal_codec.go:34-61 | which commands are encoded, and as which fields in which order |
| RevealCodec.BuildCustodiedAAD | server/business/doudizhu/application/reveal_codec.go:63-85 | the same for custodied contributions |
| RevealCodec.BuildContributionRecordAAD | server/business/doudizhu/application/reveal_codec.go:87-100 | the same for contribution records |
| RevealCodec.RevealAADIsInjective | server/business/doudizhu/application/reveal_codec.go:34-61 | equal reveal bytes come from equal command, actor, seat, commitment and key |
| RevealCodec.CustodiedAADIsInjective | server/business/doudizhu/application/reveal_codec.go:63-85 | equal custodied bytes come from equal command, actor, seat and key |
| RevealCodec.RecordAADIsInjective | server/business/doudizhu/application/reveal_codec.go:87-100 | equal record bytes come from equal fields |
| ReadBack.WrittenReadsBack | server/business/doudizhu/application/reveal_codec.go:162-181 | a reader that takes the fields one after the other gets back every written field |
| ReadBack.HighByteFirst | server/business/doudizhu/application/reveal_codec.go:162-181 | of the bytes of a written number the first one counts most |
| ReadBack.WordReadsBack | server/business/doudizhu/application/reveal_codec.go:173-181 | the bytes written for a 64-bit number are read as that number |
| ReadBack.RevealReadsBack | server/business/doudizhu/application/reveal_codec.go:34-61 | what the reveal bytes say, field by field and in order |
| ReadBack.CustodiedReadsBack | server/business/doudizhu/application/reveal_codec.go:63-85 | the same for custodied contributions |
| ReadBack.RecordReadsBack | server/business/doudizhu/application/reveal_codec.go:87-100 | the same for contribution records |
| RevealCodec.KindsAreDisjoint | server/business/doudizhu/application/reveal_codec.go:34-100 | no bytes belong to two of the three kinds |
| RevealCodec.RevealTicketsAgree | clients/fair-doudizhu-cocos/assets/scripts/game/GameFairnessActions.ts:46-57 | for the same claims the client's reveal bytes are the server's |
| RevealCodec.CustodiedTicketsAgree | clients/fair-doudizhu-cocos/assets/scripts/game/GameFairnessActions.ts:72-83 | for the same claims the client's custodied bytes are the server's |
| RevealCodec.WhoRefusesWhat | server/apps/app-api/internal/doudizhuapi/reveal_ticket.go:125-150 | exactly which claims only one side encodes |
| Fairness.PreimageIsInjective | server/business/gamecore/fairness.go:98-128 | valid fairness materials with equal digest preimages are equal |
| Fairness.CanonicalDigest | server/business/gamecore/fairness.go:98-128 | refuses exactly invalid material, names that are not UTF-8 included, otherwise hashes the fields written in order |
| ReadBack.MaterialReadsBack | server/business/gamecore/fairness.go:98-128 | what the digest preimage says, field by field and in order |
| RoomAggregate.Room.Join | server/business/doudizhu/domain/room.go:113-137 | the in-place method performs the join transition, or changes nothing |
| RoomAggregate.Room.Leave | server/business/doudizhu/domain/room.go:139-165 | the same for leaving, with the owner's departure closing the room |
| RoomAggregate.Room.SetReady | server/business/doudizhu/domain/room.go:167-188 | the same for the ready flag |
| RoomAggregate.Room.StartHand | server/business/doudizhu/domain/room.go:190-219 | the same for starting a hand, with the loop that clears the ready flags |
| RoomAggregate.Room.FinishHand | server/business/doudizhu/domain/room.go:221-238 | the same for finishing a hand |
| RoomAggregate.RestoreRoom | server/business/doudizhu/domain/restore.go:11-70 | the checks, in order and in a loop over the seats, accept exactly the restorable snapshots and rebuild the room |
| RoomModel.SoundIffInvariant | server/business/doudizhu/domain/restore.go:170-193 | restore(snapshot(s)) = s holds exactly for rooms that satisfy the room's own invariant |
| RoomModel.TransitionsKeepSoundness | server/business/doudizhu/domain/room.go:113-238 | every transition of a loadable room by a named actor gives a loadable room |
| RoomModel.ReadyOnEmptySeat | server/business/doudizhu/domain/room.go:167-188 | an accepted ready change keeps the room loadable exactly when the actor is named |
| RoomModel.OneEventPerTransition | server/business/doudizhu/domain/room.go:294-303 | each transition emits one event carrying the version it leaves |
| RoomModel.ActiveHandBlocksTheRest | server/business/doudizhu/domain/room.go:113-238 | while a hand is active only finishing that hand is possible, and it keeps the seats |
| RoomModel.OnlyStartActivates | server/business/doudizhu/domain/room.go:190-238 | a room becomes active exactly by starting a hand |
| RoomModel.PersistenceIsTransparent | server/business/doudizhu/domain/room.go:93-111 | any run with a save and a load around every action equals the run in memory |
| RoomMeaning.CreatingSeatsOwner | server/business/doudizhu/domain/room.go:75-91 | a new room has its owner in the first seat, not ready, and nobody else |
| RoomMeaning.JoiningTakesSeat | server/business/doudizhu/domain/room.go:113-137 | who joins sits afterwards, not ready, in the first seat that was empty, and nobody else is moved |
| RoomMeaning.LeavingVacatesSeat | server/business/doudizhu/domain/room.go:139-165 | who leaves has no seat afterwards, and nobody else is moved |
| RoomMeaning.OwnerLeavesLast | server/business/doudizhu/domain/room.go:139-165 | the owner leaves an otherwise empty room and closes it; after anybody else it waits for players |
| RoomMeaning.ReadySetsFlag | server/business/doudizhu/domain/room.go:167-188 | exactly the actor's flag gets the value asked for, and the room is ready exactly if everyone is |
| RoomMeaning.StartingTakesEveryone | server/business/doudizhu/domain/room.go:190-219 | the owner starts a hand for three ready members, who keep their seats and are not ready any more |
| RoomMeaning.FinishingFreesRoom | server/business/doudizhu/domain/room.go:221-238 | finishing the active hand keeps everyone seated and the name of an archived hand |
| RoomMeaning.RefusalsAreTrue | server/business/doudizhu/domain/room.go:113-238 | every refusal gives a reason that holds of the room |
| RoomMeaning.AcceptedIffNothingAgainst | server/business/doudizhu/domain/room.go:113-238 | a room accepts an action exactly when no reason against it holds |
| RoomMeaning.LoadableIffSaved | server/business/doudizhu/domain/restore.go:11-70 | the snapshots that load are exactly those of rooms that satisfy the invariant, and each loads as its room |
| HandAggregate.Hand.SubmitCommit | server/business/doudizhu/domain/hand_fairness.go:9-33 | the in-place method performs the commit transition, or changes nothing |
| HandAggregate.Hand.SubmitReveal | server/business/doudizhu/domain/hand_fairness.go:35-75 | the same for a reveal |
| HandAggregate.Hand.SubmitCustodiedContribution | server/business/doudizhu/domain/hand_fairness.go:77-110 | the same for a one-shot custodied contribution |
| HandAggregate.Hand.LockPublicBeacon | server/business/doudizhu/domain/hand_fairness.go:112-135 | the same for locking the beacon |
| HandAggregate.Hand.Terminate | server/business/doudizhu/domain/hand_lifecycle.go:46-64 | the same for ending a hand early |
| HandAggregate.Hand.Cancel | server/business/doudizhu/domain/hand_lifecycle.go:24-29 | the same for cancelling, which dealt hands refuse |
| HandAggregate.Hand.Advance | server/business/doudizhu/domain/hand_lifecycle.go:8-44 | the same for dealing, playing, settling and completing |
| HandAggregate.RestoreHand | server/business/doudizhu/domain/restore.go:72-159 | accepts exactly the restorable snapshots and rebuilds the hand |
| HandModel.SoundIffInvariant | server/business/doudizhu/domain/restore.go:206-255 | restore(snapshot(h)) = h holds exactly for hands that satisfy the hand's own invariant |
| HandLemmas.TransitionsKeepSoundness | server/business/doudizhu/domain/hand_fairness.go:9-135 | every transition of a loadable hand gives a loadable hand, in both fairness modes |
| HandLemmas.NewHandIsSound | server/business/doudizhu/domain/hand_types.go:144-227 | a new hand is loadable, at version 1, with one event |
| HandLemmas.EventsAreNumbered | server/business/doudizhu/domain/hand_lifecycle.go:91-106 | a transition's events carry the versions between the old and the new one, without a gap |
| HandLemmas.PersistenceIsTransparent | server/business/doudizhu/domain/hand_types.go:229-263 | any run with a save and a load around every action equals the run in memory |
| HandMeaning.CreatingKeepsSetup | server/business/doudizhu/domain/hand_types.go:144-227 | a new hand has what it was given, and no contribution, beacon or reason yet |
| HandMeaning.CommittingRecords | server/business/doudizhu/domain/hand_fairness.go:9-33 | a commitment is recorded for the actor's own seat, which had none, and the third one opens the revealing |
| HandMeaning.RevealingRecords | server/business/doudizhu/domain/hand_fairness.go:35-75 | a reveal is recorded, digest and record, for the actor's own seat, whose commitment it opens |
| HandMeaning.CustodiedRecords | server/business/doudizhu/domain/hand_fairness.go:77-110 | a custodied contribution commits and reveals the actor's own seat at once |
| HandMeaning.LockingKeepsValue | server/business/doudizhu/domain/hand_fairness.go:112-135 | the beacon that is locked is the value given, of the hand's own plan, with its reference trimmed |
| HandMeaning.AdvancingChangesPhase | server/business/doudizhu/domain/hand_lifecycle.go:8-44 | an advance changes the phase to the next one and nothing else |
| HandMeaning.StoppingGivesReason | server/business/doudizhu/domain/hand_lifecycle.go:24-64 | an early ending changes the phase and the reason only, and only an undealt hand is cancelled |
| HandMeaning.RefusalsAreTrue | server/business/doudizhu/domain/hand_fairness.go:9-135 | every refusal gives a reason that holds of the hand |
| HandMeaning.AcceptedIffNothingAgainst | server/business/doudizhu/domain/hand_fairness.go:9-135 | a hand accepts an action exactly when no reason against it holds |
| HandMeaning.LoadableIffSaved | server/business/doudizhu/domain/restore.go:72-159 | the snapshots that load are exactly those of hands that satisfy the invariant, and each loads as its hand |
| HandLemmas.CommitBeforeBeacon | server/business/doudizhu/domain/hand_fairness.go:9-135 | over all runs: commitments never change, reveals match them, nothing contributed changes from the waiting phase on, the beacon comes after three reveals |
| Quicknet.PublicationDefined | server/business/doudizhu/application/drand_deadline.go:18-28 | accepted rounds are exactly the canonical decimals of 1 to 2^52 |
| Quicknet.RoundArithmetic | server/business/doudizhu/application/drand_deadline.go:18-28 | no step overflows int64, and publications are ordered and spaced as their rounds |
| Quicknet.ExactlyOneSide | server/business/doudizhu/application/drand_deadline.go:29-41 | contribution allowed and abort allowed exclude each other, and cover every instant exactly for canonical rounds |
| SetupProvider.FutureRoundIsCanonicalIff | server/business/doudizhu/infrastructure/runtime/drand_quicknet.go:155-162 | the round locked in is a canonical one exactly as long as there are such rounds |
| SetupProvider.FutureRoundIsAhead | server/business/doudizhu/infrastructure/runtime/drand_quicknet.go:155-162 | it is published more than 60 and at most 63 seconds after the clock reading |
| SetupProvider.ProvidedHasOneSide | server/business/doudizhu/infrastructure/runtime/hand_setup_provider.go:40-85 | a plan of the provider has exactly one side at every instant, the contributors' for at least a minute after it is prepared |
| SetupProvider.LeadingZeroCanBeCreated | server/business/doudizhu/domain/hand_types.go:144-227 | wherever a hand is created with some plan it is also created with round "01", which is never contributed to, never aborted, and never the provider's |
| Quicknet.ContributionsPrecedePublication | server/business/doudizhu/application/hand_contribution.go:36-44 | in a quicknet hand every contribution was accepted strictly before the round's publication, over all timed runs |
| Service.DurableService.Execute | server/business/doudizhu/application/service.go:83-202 | the claim-check-mutate-record transaction is the step function, with rollback as not assigning the store |
| Service.DurableService.BuildOutbox | server/business/doudizhu/application/service.go:244-265 | one outbox row and one reference per event, in order, caused by this command |
| Handlers.HandleCreateRoom | server/business/doudizhu/application/room_commands.go:18-31 | touches neither ledger nor sequences, outbox or writers; a rejection wrote nothing |
| Handlers.MutateRoom | server/business/doudizhu/application/room_commands.go:122-143 | the same for joining, leaving and ready changes |
| Handlers.HandleStartRoomHand | server/business/doudizhu/application/room_commands.go:51-120 | the same for starting a hand, although it inserts the hand before it updates the room |
| Handlers.HandleReveal | server/business/doudizhu/application/hand_commands.go:31-107 | the same for reveals, although the record is inserted before the hand is updated |
| Handlers.HandleContribution | server/business/doudizhu/application/hand_contribution.go:20-105 | the same for custodied contributions |
| Handlers.HandleTerminate | server/business/doudizhu/application/hand_commands.go:246-327 | the same for endings, although the live writer is fenced before the rows are written |
| Effects.Explain | server/business/doudizhu/application/hand_commands.go:22-327 | every handler's success is the one transition its command asks for, from the loaded rows, with the rows and events it must write and no others |
| Reachable.AcceptedDidWhatItAsks | server/business/doudizhu/application/service.go:104-191 | an accepted command took the transition it names, by its actor, from the version it expected, and a contribution only before publication |
| Acceptance.StartSucceedsIff | server/business/doudizhu/application/room_commands.go:56-119 | a hand starts exactly when the room allows it and the prepared setup fits and is new |
| Acceptance.RevealSucceedsIff | server/business/doudizhu/application/hand_commands.go:31-107 | a reveal succeeds exactly when the hand allows it before publication and its record fits; the seat lookup refuses nobody else |
| Acceptance.CustodiedSucceedsIff | server/business/doudizhu/application/hand_contribution.go:20-105 | the same for custodied contributions, whose checks in front of the domain refuse nothing else |
| Verdict.AcceptedIff | server/business/doudizhu/application/service.go:83-202 | for every command name: a delivery is newly accepted exactly when it is well formed, new, timely and in sequence, and the stored rooms and hands and the collaborators' answers allow what it asks for |
| Verdict.ReachableAcceptedIff | server/business/doudizhu/application/service.go:83-202 | the same in every reachable store |
| Admission.ReceivedIff | server/business/doudizhu/application/service.go:204-242 | what a command needs before its handler runs, said of its fields and the clock |
| Admission.AcceptedInTime | server/business/doudizhu/application/service.go:226-242 | in every reachable store a newly accepted command was issued at most 30 s after the clock reading and expires not before it, at most 120 s after it was issued |
| Admission.LateIsRejectedForGood | server/business/doudizhu/application/service.go:128-134 | a command that first arrives after its expiry is rejected, spends no sequence, and nothing under its identifier is ever accepted |
| Admission.CompletionSpendsSequence | server/business/doudizhu/application/service.go:136-191 | whatever reaches its handler and completes, accepted or rejected, spends its sequence; nothing else does |
| Admission.SpentSequenceIsGone | server/business/doudizhu/application/service.go:136-160 | over any run after that, no new command of the actor on the aggregate with a sequence up to it is accepted: it is told of the sequence conflict |
| Admission.IdentifierIsTaken | server/business/doudizhu/application/service.go:113-126 | a used identifier with a different command behind it is a conflict, with the version the first one left; with the same command it is a duplicate |
| Rejections.MemberRejectionTellsWhy | server/business/doudizhu/application/errors.go:53-98 | a rejected command of a member says truly why the stored room does not allow it, with the room's version |
| Rejections.HandRejectionTellsWhy | server/business/doudizhu/application/errors.go:53-98 | a rejected command on a hand says truly why the stored hand does not allow it, with the hand's version |
| Rejections.ConflictNamesActual | server/business/doudizhu/application/errors.go:53-62 | a version conflict is replied with the version that was found |
| Outbox.AppendNumbered | server/business/doudizhu/application/service.go:244-265 | a numbered batch extends its own aggregate's versions and no other's |
| Outbox.AppendCaused | server/business/doudizhu/application/service.go:244-265 | a batch is attributed to its own command and to no other |
| StoreInvariant.EffectsKeepLinked | server/business/doudizhu/application/hand_commands.go:246-327 | every transaction keeps: a room is active on a hand exactly when that hand is live in it, and then their seats agree |
| StoreInvariant.EffectsKeepLoadable | server/business/doudizhu/domain/restore.go:11-159 | every transaction keeps all stored rooms and hands loadable |
| StoreInvariant.EffectsKeepGapFree | server/business/doudizhu/domain/hand_lifecycle.go:97-106 | every transaction keeps each aggregate's events at versions 1 to the stored one, in order |
| StoreInvariant.ReleaseNeverFails | server/business/doudizhu/application/hand_commands.go:280-283 | the room of a live hand can always be released |
| StoreInvariant.OneLiveHandPerRoom | server/business/doudizhu/application/room_commands.go:56-119 | a room has at most one live hand |
| Ledger.StepKeepsConsistent | server/business/doudizhu/application/service.go:83-202 | any delivery keeps the whole store invariant, and a new acceptance replies the stored version, which is the last in the log |
| Ledger.StepOutcome | server/business/doudizhu/application/service.go:104-191 | a delivery changes nothing, or rejects one new command, or accepts one new command, and in no other way |
| Ledger.RoomReplyVersion | server/business/doudizhu/application/room_commands.go:18-143 | an accepted room command replies the version one above the expected one |
| Reachable.EveryReachableStoreIsConsistent | server/business/doudizhu/application/service.go:83-202 | all of this in every store reachable from the empty one |
| Reachable.RoomsAndHandsAgree | server/business/doudizhu/application/room_commands.go:56-119 | in every reachable store a room is active on a hand iff the hand is its live hand, seats agree, and the live hand is unique |
| StoredHands.StoredHandsEvolve | server/business/doudizhu/domain/hand_fairness.go:9-135 | over any run of the service every stored hand only evolves: setup and commitments stay, and from the waiting phase on so do the contributions; matching reveals stay matching |
| StoredHands.StoredCommitBeforeBeacon | server/business/doudizhu/application/hand_commands.go:22-134 | commit before beacon for every hand of every reachable store and any run from there on, whatever commands anybody sends |
| StoredHands.StoredContributionsAreEarly | server/business/doudizhu/application/hand_contribution.go:36-44 | in every reachable store each contribution of a quicknet hand was made by a delivery, which is found, whose clock reading preceded the publication of the hand's round |
| StoredHands.StoredHandsAreSchedulable | server/business/doudizhu/infrastructure/runtime/hand_setup_provider.go:40-85 | every stored quicknet hand that the provider set up is on a canonical round |
| StoredHands.StoredHandsHaveOneSide | server/apps/app-api/internal/bootstrap/doudizhu_autodeal.go:91-112 | such a hand has exactly one side at every instant and, while it collects contributions, never stops the dealer's page |
| Provenance.StoredHandsWereSetUp | server/business/doudizhu/application/room_commands.go:51-120 | every stored hand was started by an accepted command, with every part of the setup prepared then |
| Provenance.StoredContributionsWereSent | server/business/doudizhu/application/hand_commands.go:22-107 | what a seat has contributed is the commitment, or the digest and record, of an accepted command of the account in that seat |
| Provenance.StoredBeaconsWereVerified | server/business/doudizhu/application/hand_commands.go:109-134 | a stored hand's beacon is the value verified for an accepted locking command on that hand, of the hand's own plan, with its reference trimmed |
| Provenance.StoredEndingsWereAsked | server/business/doudizhu/application/hand_commands.go:168-258 | an ended hand was ended by an accepted command for that ending, with its reason |
| Provenance.RevealsLeaveRecords | server/business/doudizhu/application/hand_commands.go:73-105 | exactly an accepted reveal or custodied contribution keeps a record, under a new identifier and sealed |
| StoredRooms.CreatorOwnsRoom | server/business/doudizhu/application/room_commands.go:18-31 | an accepted creation stores a room with its owner in the first seat and nobody else |
| StoredRooms.JoinerSits | server/business/doudizhu/application/room_commands.go:33-49 | after an accepted join the actor sits, not ready, in a seat of the stored room that was empty, and the others are as they were |
| StoredRooms.LeaverIsGone | server/business/doudizhu/application/room_commands.go:33-49 | after an accepted leave the actor has no seat in the stored room, and the others are as they were |
| StoredRooms.ReadyIsSet | server/business/doudizhu/application/room_commands.go:33-49 | after an accepted ready change exactly the actor's flag in the stored room has the value asked for |
| StoredRooms.EndingFreesRoom | server/business/doudizhu/application/hand_commands.go:246-327 | after an accepted ending the stored room is free with everyone seated, and names the hand as its last one exactly if it had been dealt |
| Reachable.StepFollows | server/business/doudizhu/application/service.go:104-191 | completed results, sequences and events are never taken back; what is not a new acceptance changes no room, hand or event |
| Reachable.ReplayHasNoEffect | server/business/doudizhu/application/service.go:113-126 | a used command identifier changes nothing; the same command replies the stored result as a duplicate |
| Reachable.ResendingIsSafe | server/business/doudizhu/application/service.go:292-307 | after any run in between, resending an accepted request replies its first result and changes nothing |
| Reachable.OneMutationPerCommand | server/business/doudizhu/application/service.go:104-191 | the log holds at most one room change per actor and command, and some event exactly if it was accepted |
| Reachable.NoSequenceIsReused | server/business/doudizhu/application/service.go:132-142 | in every reachable store accepted commands of one actor on one aggregate have different sequences |
| Reachable.EndingAlwaysReleases | server/business/doudizhu/application/hand_commands.go:246-327 | a hand that may end ends and frees its room in the same transaction, exactly unless it is a guarded expiry that is overtaken or has no writer row |
| RoomClient.RoomCoordinator.BeginPerform | clients/packages/doudizhu-client/src/room.ts:95-107 | all refusals of a new command, and the sequence that is spent before the identifier is known |
| RoomClient.RoomCoordinator.SendNamed | clients/packages/doudizhu-client/src/room.ts:108-117 | a usable identifier makes the pending request; without one nothing is sent and the sequence stays spent |
| RoomClient.RoomCoordinator.TransportFailed | clients/packages/doudizhu-client/src/room.ts:118-123 | a failed send leaves the outcome unknown, a failed retry leaves it as it was |
| RoomClient.RoomCoordinator.JoinRoom | clients/packages/doudizhu-client/src/room.ts:74-79 | raises the sequence even when the command is then refused |
| RoomClient.RoomCoordinator.WithRoom | clients/packages/doudizhu-client/src/room.ts:80-93 | commands on the adopted room expect its adopted version |
| RoomClient.RoomCoordinator.AcceptResult | clients/packages/doudizhu-client/src/room.ts:123-158 | what is adopted, what is a definite rejection, and what leaves the outcome unknown |
| RoomClient.RoomCoordinator.RetryUnknown | clients/packages/doudizhu-client/src/room.ts:40-49 | a retry resends exactly the pending request |
| RoomClient.RoomCoordinator.RestoreTrustedRoom | clients/packages/doudizhu-client/src/room.ts:52-64 | a trusted read replaces the room, never lowers a sequence and never settles another room's request |
| RoomClient.RoomCoordinator.ForgetTrustedRoom | clients/packages/doudizhu-client/src/room.ts:68-72 | drops only that room, and never with a command unresolved |
| EndToEnd.MovesKeepBookkeeping | clients/packages/doudizhu-client/src/room.ts:95-124 | an unknown outcome always has its request and blocks new ones; requests never share identifier or sequence |
| EndToEnd.ActionsHappenAtMostOnce | clients/packages/doudizhu-client/src/room.ts:40-158 | over a network that loses, delays and duplicates: one action changes at most one room once, a seen rejection is final, an adopted version is the ledger's for that request |
| EndToEnd.SequencesAreNeverReused | clients/packages/doudizhu-client/src/room.ts:104-107 | no client sequence is used for two actions on a room |
| Settling.IdleClientDrafts | clients/packages/doudizhu-client/src/room.ts:95-107 | an idle client that is sure of its room takes every command that suits it, and no other, under the next sequence |
| Settling.NamingMakesPending | clients/packages/doudizhu-client/src/room.ts:108-117 | a named draft becomes the pending request; without a usable name the client is idle again |
| Settling.JoiningRaisesSequence | clients/packages/doudizhu-client/src/room.ts:74-79 | joining with the server's sequence never lowers the room's own and touches no other |
| Settling.UnknownIsRetried | clients/packages/doudizhu-client/src/room.ts:40-49 | exactly an unknown outcome is retried, with the request that is pending |
| Settling.TrustedReadSettles | clients/packages/doudizhu-client/src/room.ts:52-64 | a trusted read settles the room's own unknown outcome and no other |
| Settling.ForgettingIsSafe | clients/packages/doudizhu-client/src/room.ts:68-72 | only a client with nothing open forgets, and only the room named |
| Settling.LedgerReplySettles | clients/packages/doudizhu-client/src/room.ts:123-158 | when the awaited reply carries the ledger's result the outcome is settled: adopted exactly if accepted, refused exactly if rejected, and no room is held after a leave |
| Settling.RetrySettles | clients/packages/doudizhu-client/src/room.ts:40-49 | from every world a run can come to, retrying an unknown outcome and getting the reply settles it as the ledger says |
| LiveDirectory.Directory.Add | server/business/gamecore/runtime.go:146-174 | lists a fresh entry exactly for a valid description that the game has, under a valid, unused identifier |
| LiveDirectory.Directory.Lookup | server/business/gamecore/runtime.go:403-417 | the entry listed at that moment, or which error |
| LiveDirectory.Directory.Apply | server/business/gamecore/runtime.go:176-215 | the locked section on a possibly stale entry, and when the directory lets go of it |
| LiveDirectory.Directory.ApplyCommitted | server/business/gamecore/runtime.go:220-274 | the game changes only after a reported persist; a failed one quarantines |
| LiveDirectory.Directory.View | server/business/gamecore/runtime.go:293-315 | which entries and viewers see the published game, and that the game's own answer or refusal is passed on |
| LiveDirectory.Directory.Abort | server/business/gamecore/runtime.go:317-346 | an abort finalizes with an aborted record, quarantined or not |
| LiveDirectory.Directory.RetryArchive | server/business/gamecore/runtime.go:348-366 | archives the very record that was pending |
| LiveDirectory.Directory.RemoveForCompensation | server/business/gamecore/runtime_compensation.go:8-26 | removes and closes exactly an open, listed entry without a pending record |
| LiveGame.PublishedOnlyWhatPersisted | server/business/gamecore/runtime.go:220-274 | over any run of durable commits the published game is the initial one with exactly the journalled commands replayed; only a quarantined entry may lag by the one ambiguous command |
| LiveGame.QuarantineIsFinal | server/business/gamecore/runtime.go:230-232 | after a failed persist neither game nor journal changes again |
| LiveGame.BlockedOperations | server/business/gamecore/runtime.go:183-188 | closed, quarantined or finalizing entries refuse every command unchanged; views are refused by the first two only, and are the game's otherwise |
| LiveGame.CommitAgreesWithApply | server/business/gamecore/runtime.go:176-274 | a durable commit that persists answers and leaves exactly what the direct application does |
| LiveGame.AppliedTellsRules | server/business/gamecore/runtime.go:176-215 | an entry answers a player's command exactly as the game's rules do, if what they say is coherent; a terminal outcome leaves the record of a completed game |
| LiveGame.UnpersistedQuarantines | server/business/gamecore/runtime.go:220-274 | a commit that is not persisted quarantines the entry and changes nothing else |
| LiveGame.AbortedTellsRules | server/business/gamecore/runtime.go:317-346 | an abort that the rules allow leaves the record of an aborted game |
| LiveGame.RetryHandsOverRecord | server/business/gamecore/runtime.go:348-366 | retrying the archive hands over the pending record and changes nothing |
| LiveGame.ViewIsGames | server/business/gamecore/runtime.go:293-315 | a viewer whom the game has sees what the game shows |
| LiveGame.AbortIgnoresQuarantine | server/business/gamecore/runtime.go:322-346 | an abort has the same outcome with and without the quarantine |
| Finalization.ListedIffOpen | server/business/gamecore/runtime.go:403-434 | in every interleaving a free entry is listed exactly when it is open, and is archived at most once |
| Finalization.OneOpenEntryPerInstance | server/business/gamecore/runtime.go:146-174 | open entries with free locks never share an identifier |
| Finalization.StepsAreTame | server/business/gamecore/runtime.go:419-434 | closed entries stay as they are, a pending record stays until archived, no command reaches the game after either |
| Finalization.RemovalFindsItsEntry | server/business/gamecore/runtime.go:426-429 | the comparison before a removal never fails |
| Compensation.DealIsAtomic | server/business/doudizhu/application/hand_commands.go:136-166 | when taking back works, dealing changes the store and starts the game together or does neither |
| Compensation.NoGameBeforeDealing | server/business/doudizhu/application/hand_commands.go:136-166 | then no run gives a hand a live game before it is dealt |
| Compensation.LeakIffRollbackFails | server/business/doudizhu/application/service.go:193-200 | a game outlives its failed deal exactly when taking it back fails |
| Supervisor.Supervisor.TrackBidding | server/business/doudizhu/application/lifecycle/supervisor.go:132-148 | the section that arms a timer only when there is none |
| Supervisor.Supervisor.Schedule | server/business/doudizhu/application/lifecycle/supervisor.go:375-388 | the section is the scheduling function on the timers |
| Supervisor.Supervisor.ScheduleIfPhaseMissing | server/business/doudizhu/application/lifecycle/historical.go:121-136 | the section for receipts of old actions |
| Supervisor.Supervisor.RefreshCommittedProgress | server/business/doudizhu/application/lifecycle/supervisor.go:344-373 | the section that rearms from committed progress |
| Supervisor.Supervisor.BeginTermination | server/business/doudizhu/application/lifecycle/supervisor.go:425-439 | the first section of a termination: stop, conflict, execute the pending one, or prepare |
| Supervisor.Supervisor.InstallTermination | server/business/doudizhu/application/lifecycle/supervisor.go:474-488 | the section that installs a termination, with its last due check |
| Supervisor.Supervisor.RetirePending | server/business/doudizhu/application/lifecycle/supervisor.go:509-515 | the section after a lost race retires only its own command |
| Supervisor.Supervisor.Due | server/business/doudizhu/application/lifecycle/supervisor.go:232-243 | the loop collects exactly the due timers without a pending termination |
| Supervisor.Supervisor.Forget | server/business/doudizhu/application/lifecycle/supervisor.go:288-292 | forgets that hand and no other |
| Supervisor.TimerNeverGoesBack | server/business/doudizhu/application/lifecycle/supervisor.go:344-388 | in any interleaving a timer's version never goes down and playing never becomes bidding |
| Supervisor.PendingStays | server/business/doudizhu/application/lifecycle/supervisor.go:475-486 | an installed termination and its timer stay until forgotten or the race is lost |
| Supervisor.SectionAdvances | server/business/doudizhu/application/lifecycle/supervisor.go:375-399 | the same for one section, and that only its own command retires a termination |
| Supervisor.ExpiryCarriesTimerVersion | server/business/doudizhu/application/lifecycle/supervisor.go:458-483 | a pending expiry, prepared in one section and installed in another, carries its timer's live version |
| Supervisor.ExpiriesAlwaysCarryVersion | server/business/doudizhu/application/lifecycle/supervisor.go:344-373 | although recovered timers have no version, no sweep in any interleaving installs an expiry without one |
| Supervisor.TimersShowHistory | server/business/doudizhu/application/lifecycle/reconcile_recovered.go:17-67 | in any interleaving of callbacks, recoveries, old receipts, sweeps and terminations a timer shows the phase the live game had at the timer's version, and one without a version is playing only if the recovered game was |
| Supervisor.CallbacksEndAtHighest | server/business/doudizhu/application/lifecycle/supervisor.go:375-388 | callbacks in any order and number end at the largest version delivered and its phase |
| Supervisor.OrderDoesNotMatter | server/business/doudizhu/application/lifecycle/supervisor.go:375-388 | any two orders with any repetitions end alike |
| Supervisor.RenewalDefeatsSweep | server/business/doudizhu/application/lifecycle/supervisor.go:393-399 | a renewed timer is not expired by a sweep that saw the old one |
| Supervisor.OnlyDueTimersExpire | server/business/doudizhu/application/lifecycle/supervisor.go:393-399 | a sweep installs a termination only on an unchanged timer that is due then |
| Supervisor.CandidatesMayBegin | server/business/doudizhu/application/lifecycle/supervisor.go:232-243 | the candidates of a sweep are exactly the timers that a termination would go on with |
| Supervisor.DeadlineIsFromLastRenewal | server/business/doudizhu/application/lifecycle/supervisor.go:344-388 | over any interleaving every timer stands as its last renewal set it, with its phase's whole timeout from that clock reading |
| Supervisor.NobodyExpiresEarly | server/business/doudizhu/application/lifecycle/supervisor.go:393-399 | a sweep installs a termination only when the whole timeout of the timer's phase has passed since its last renewal |
| Supervisor.NewerCallbackRenews | server/business/doudizhu/application/lifecycle/supervisor.go:375-388 | which callbacks renew a timer, and that the others change nothing |
| Supervisor.FirstRegistrationStands | server/business/doudizhu/application/lifecycle/supervisor.go:132-148 | a hand's first registration stands |
| Supervisor.OldReceiptOnlyFillsIn | server/business/doudizhu/application/lifecycle/historical.go:121-136 | which old receipts arm a timer, and that the others change nothing |
| Supervisor.RefreshTells | server/business/doudizhu/application/lifecycle/supervisor.go:344-373 | a refresh says truly what it found, and renews exactly for committed progress |
| Supervisor.TerminationBegins | server/business/doudizhu/application/lifecycle/supervisor.go:425-439 | a pending termination is run only for its own kind and reason, and is in conflict with another |
| Supervisor.InstallingPends | server/business/doudizhu/application/lifecycle/supervisor.go:474-488 | what is installed is pending afterwards, unless another termination was there first |
| Supervisor.RetirementDropsOwn | server/business/doudizhu/application/lifecycle/supervisor.go:509-515 | after a lost race only the termination with that very command is dropped, and nothing else changes |
| ExpiryRace.ExpiryCommitsOnlyUnprogressed | server/business/doudizhu/application/hand_commands.go:290-316 | a guarded expiry commits only with a writer row without any live action above its version, and fences exactly that row |
| LiveWriters.RunFits | server/business/doudizhu/infrastructure/runtime/durable_live_recover.go:21-166 | in any run: no process holds an epoch above the row's, actions are admitted only where recovery is over and only for dealt hands, the row of a deal still to be taken back is its starter's alone, and the store stays consistent |
| LiveWriters.NoLiveActionAfterExpiry | server/business/doudizhu/application/hand_bidding.go:38-66 | over any run of commands, deals, recoveries, take-overs and live actions at any number of processes: a guarded expiry commits only if no live action above its version has, and none of that hand commits after it, under whatever epoch |
| LiveWriters.TakeOverCutsOff | server/business/doudizhu/infrastructure/mysqlstore/live_journal.go:104-137 | over any run, who takes a hand over holds its newest epoch, and no action under an epoch anybody else holds commits |
| LiveWriters.OnlyAdmittedActionsFollow | server/business/doudizhu/application/hand_commands.go:246-327 | however a hand ends, over any run: no place is newly admitted for it, and a live action of it commits only at a place admitted before the ending and only while the writer row keeps the epoch it had |
| LiveWriters.AdmittedActionMayFollow | server/business/doudizhu/application/hand_commands.go:290-316 | an ending other than a guarded expiry does not fence: wherever a hand can be played, an action admitted just before such an ending still commits after it |
| ExpiryRace.RaceIsLostIffProgressed | server/business/doudizhu/application/hand_commands.go:303-308 | a guarded expiry of a hand that may end fails exactly when a later live action has committed or there is no writer row, and says which |
| ExpiryRace.LostRaceKeepsHand | server/business/doudizhu/application/lifecycle/supervisor.go:506-520 | a lost race rolls back whole and retires the pending expiry, keeping the timer |
| ExpiryRace.CommandsKeepWriters | server/business/doudizhu/infrastructure/mysqlstore/transaction.go:24-45 | no command commits a live action, adds or drops a writer row, or takes an epoch back |
| ExpiryRace.ZeroVersionIsUnguarded | server/business/doudizhu/application/hand_commands.go:290-291 | an expiry with version 0 ends a hand that may end whatever live actions have committed |
| ExpiryRace.PendingExpiriesAreGuarded | server/business/doudizhu/application/lifecycle/supervisor.go:344-373 | where durability is enforced, every expiry the supervisor has pending is guarded, in any interleaving of its sections |
| AutoDealer.ProcessOnce | server/apps/app-api/internal/bootstrap/doudizhu_autodeal.go:76-157 | the loop treats the hands in order, counts progress and stops at the first failure |
| AutoDealer.OneHandIsTreated | server/apps/app-api/internal/bootstrap/doudizhu_autodeal.go:76-157 | a page of one hand is the treatment of that hand |
| AutoDealer.PagesConcatenate | server/apps/app-api/internal/bootstrap/doudizhu_autodeal.go:76-157 | a page is its first part and, if that was done to its end, the rest; progress adds up |
| DealerDrive.LeavesAlone | server/apps/app-api/internal/bootstrap/doudizhu_autodeal.go:91-157 | which hands the dealer leaves alone, with nothing written |
| DealerDrive.StopsUnwritten | server/apps/app-api/internal/bootstrap/doudizhu_autodeal.go:113-135 | an unreadable beacon or a missing identifier stops the dealer with nothing written |
| DealerDrive.DealerCommandIsNext | server/apps/app-api/internal/bootstrap/doudizhu_autodeal.go:49-71 | the dealer's command is the next in its sequence and expects the version just read |
| DealerDrive.LocksPublishedBeacon | server/apps/app-api/internal/bootstrap/doudizhu_autodeal.go:113-135 | undisturbed, the dealer locks the published beacon of a waiting hand, which then is to be dealt with that very beacon |
| DealerDrive.DealsLockedHand | server/apps/app-api/internal/bootstrap/doudizhu_autodeal.go:136-157 | undisturbed, the dealer deals a hand that is to be dealt |
| AutoDealer.ProcessingKeepsConsistent | server/apps/app-api/internal/bootstrap/doudizhu_autodeal.go:76-157 | a page keeps the store invariant |
| AutoDealer.NeverAbortsEarly | server/apps/app-api/internal/bootstrap/doudizhu_autodeal.go:91-112 | a contributing hand is touched only when no contribution is allowed any more |
| AutoDealer.PublicRoundIsTreated | server/apps/app-api/internal/bootstrap/doudizhu_autodeal.go:91-112 | it is progressed exactly when its round is public and the abort is accepted |
| AutoDealer.AbortGoesThrough | server/apps/app-api/internal/bootstrap/doudizhu_autodeal.go:49-71 | in a favourable environment the dealer's abort of a live hand is accepted and frees the room |
| AutoDealer.SystemAbortGoesThrough | server/apps/app-api/internal/bootstrap/doudizhu_autodeal.go:49-71 | in every reachable store the deployed dealer's abort of any live hand is accepted and frees its room, whenever nothing disturbs the command |
| AutoDealer.OnlyStrangeRoundsStopThePage | server/apps/app-api/internal/bootstrap/doudizhu_autodeal.go:95-98 | among hands that still collect contributions, exactly those with a non-canonical round make the dealer's choice fail, which ends the page there with nothing written |
| ReplayCache.ReplayCache.Arrive | server/apps/app-api/internal/doudizhuapi/dispatcher.go:554-576 | prune, then join, conflict, or make room and start |
| ReplayCache.ReplayCache.Prune | server/apps/app-api/internal/doudizhuapi/dispatcher.go:589-600 | the loop drops exactly the ready, expired entries |
| ReplayCache.ReplayCache.Evict | server/apps/app-api/internal/doudizhuapi/dispatcher.go:601-616 | the loop drops a ready entry that expires first, or nothing when none is ready |
| ReplayCache.ReplayCache.Finish | server/apps/app-api/internal/doudizhuapi/dispatcher.go:577-588 | an error removes the entry, and the entry becomes ready in any case |
| ReplayCache.FinishKeepsSingleFlight | server/apps/app-api/internal/doudizhuapi/dispatcher.go:577-588 | failure cleanup removes the execution's own entry and no other |
| ReplayCache.SingleFlightAlways | server/apps/app-api/internal/doudizhuapi/dispatcher.go:554-616 | in every interleaving running executions are in the map, and its size is at most the limit or the peak of executions |
| ReplayCache.OneExecutionPerKey | server/apps/app-api/internal/doudizhuapi/dispatcher.go:554-588 | a key has at most one running execution |
| ReplayCache.WaitersGetTheirResult | server/apps/app-api/internal/doudizhuapi/dispatcher.go:557-569 | a joiner gets the outcome of an execution of its own key and digest, whenever it wakes |
| ReplayCache.ServedWhileFresh | server/apps/app-api/internal/doudizhuapi/dispatcher.go:554-576 | a request joins what its key has, running or not expired, or is in conflict with it by its digest, and starts an execution exactly when there is nothing such |
| ReplayCache.OnlyResultsAreDropped | server/apps/app-api/internal/doudizhuapi/dispatcher.go:589-616 | a request drops nothing but results, and keeps no expired one |
| ReplayCache.FirstToExpireMakesRoom | server/apps/app-api/internal/doudizhuapi/dispatcher.go:601-616 | a result that has not expired is dropped only when the cache is full, and only if no other expires before it |
| ReplayCache.FinishingKeepsResults | server/apps/app-api/internal/doudizhuapi/dispatcher.go:577-588 | a result stays under its key, an error does not |
| ReplayCache.KeysAreDistinct | server/apps/app-api/internal/doudizhuapi/dispatcher.go:156-156 | requests without zero bytes in actor and aggregate have equal keys only if they are equal |
| ReplayCache.DoubleSharesKey | server/apps/app-api/internal/doudizhuapi/dispatcher.go:156-156 | a request with a zero byte inside has a different request, which is computed, with the same key |
| ReplayCache.KeyDeterminesRequestIff | server/apps/app-api/internal/doudizhuapi/dispatcher.go:156-156 | a key determines its request exactly when none of the three parts holds a zero byte |
| ReplayCache.SeparatorsCanShareKey | server/apps/app-api/internal/doudizhuapi/dispatcher.go:477-491 | for every actor that passes validation two different valid requests share a key |
| Hub.Hub.Register | server/platform/realtime/hub.go:190-211 | the exact refusals, and the two indexes that gain the connection |
| Hub.Hub.Unregister | server/platform/realtime/hub.go:213-235 | all indexes lose the connection and no bucket stays empty, with the loop over its topics |
| Hub.Hub.Subscribe | server/platform/realtime/hub.go:237-260 | the topic index and the connection's own list change together |
| Hub.Hub.Unsubscribe | server/platform/realtime/hub.go:262-276 | the same for leaving a topic |
| Hub.Hub.BeginClose | server/platform/realtime/hub.go:160-175 | closing begins once, with the clients there are |
| Hub.RegistersIff | server/platform/realtime/hub.go:190-211 | a connection is registered exactly while the hub is open and has room for it and for its account, counted in connections |
| Hub.EventsDoTheirPart | server/platform/realtime/hub.go:190-276 | what each event changes for its own connection, and that it changes nothing for any other |
| Hub.SubscribesIff | server/platform/realtime/hub.go:237-276 | which subscriptions and cancellations are refused |
| Hub.IndexesAlwaysAgree | server/platform/realtime/hub.go:190-276 | in every reachable state: account buckets partition the clients, topic buckets hold exactly the registered connections that list the topic, none is empty, both limits hold |
| Hub.ReachableHubAgrees | server/platform/realtime/hub.go:40-64 | the same from the empty hub on |
| Hub.ClosingOnlyShrinks | server/platform/realtime/hub.go:160-188 | once closing the clients only shrink, and a terminated one never returns |
| Hub.CloseEmptiesHub | server/platform/realtime/hub.go:160-188 | when every captured client has terminated, clients and both indexes are empty |
| Hub.ReturningConnectionMustListNothing | server/platform/realtime/hub.go:190-211 | registering a known connection again keeps the topic index right exactly if it lists no topic |

## Left out

- Sampling.Uniform: requires that the stream eventually yields a kept draw, because the loop ends with probability one and not for every conceivable HMAC.
- Shuffle.Permutation: requires the same of the draws it makes, each from where the one before it ended, for the same reason.
- Shuffle.SwapDown: requires the same as Shuffle.Permutation.
- RoomClient.RoomCoordinator.BeginPerform: takes versions and sequences as integers; fractions and NaN, which the original also refuses, are not values of the model, and identifiers are measured in bytes rather than UTF-16 units.
- ReplayCache.ReplayCache.Arrive: numbers entries instead of referring to them, and a waiter whose context is cancelled is not modelled, since it changes nothing.
- Hub.Hub.Register: connections are known by their fresh identifiers, so two connections under one identifier are outside the run theorems.
- LiveDirectory.Directory.Apply: the game's rules and the archive are parameters; a record's digest and the copying of payloads are not modelled.
- LiveDirectory.Directory.View: the projection of the game's state that a viewer sees is a parameter, as are the game's rules.
- LiveWriters.NoLiveActionAfterExpiry: the journal is its epoch and committed version; payloads, result digests, integrity tags, replay on recovery, checkpoints, and the bounds on live actions per hand and on epochs are not modelled; all of them can only refuse more actions.
- LiveWriters.AdmittedActionMayFollow: the closing of the live game that follows a committed ending at the process that ran it is not modelled; where it comes first it refuses the action.
- Supervisor.ExpiriesAlwaysCarryVersion: covers sweeps that read a committed view, as every deployed supervisor does; a supervisor built without one expires what its timers say.
- SetupProvider.ProvidedHasOneSide: clock readings are unbounded instants, and a reading past the last round, some 428 million years on, is excluded.
- Text trimming is that of the six ASCII white space bytes. Names of games and their records are checked to be UTF-8; identifiers of rooms and hands are not, in the original either.
- Provenance.RevealsLeaveRecords: a protected record is its identifier; its sealed content is not modelled.
- Uniformity.EveryPermutationEquallyLikely: counts the words that draw a permutation with no draw made again; how likely a word is belongs to the HMAC.
- Event payloads, timestamps of rows and outbox identifiers: the model keeps an event's aggregate, name and version.
- Aggregate versions are unbounded; the original's uint64 would wrap after 2^64 changes of one aggregate.
- The hand's frozen reveal-key material beyond key id, digest and binding time, and the opening and sealing of envelopes: parameters of `Handlers.Environment`.
- Finalizing the live game after a committed cancellation, abort or expiry (`finalizeTerminatedRuntime`): its directory side is `LiveDirectory.Directory.Abort`; the call after the commit is not part of `Service`.
- The sweep's order of hands and its error handling; its critical sections are modelled one by one.
- Advancing the durable phases from bid and play callbacks (`advanceLiveHand`) and `Retry`: they call operations modelled here.
- Recovery kits and secrets of the client's fairness actions, apart from the two encoders.
- Live hand rules, card patterns, bidding, configuration, key windows, administration, identity and sessions, storage drivers, sockets and user interfaces: not part of this model.
