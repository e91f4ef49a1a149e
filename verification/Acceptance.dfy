/** Exactly when each command succeeds. */
module Acceptance {
  import opened Bytes
  import opened Text
  import opened Domain
  import opened Store
  import opened Handlers
  import opened Quicknet
  import opened Effects
  import opened HandLemmas
  import R = RoomModel
  import H = HandModel

  /** The room or hand under this identifier, as it is loaded. */
  function RoomAt(db: Database, id: Text): Option<R.RoomState> {
    if id in db.rooms && R.Restore(db.rooms[id]).Ok? then Some(R.Restore(db.rooms[id]).value) else None
  }

  function HandAt(db: Database, id: Text): Option<H.HandState> {
    if id in db.hands && H.Restore(db.hands[id]).Ok? then Some(H.Restore(db.hands[id]).value) else None
  }

  lemma CreateSucceedsIff(db: Database, actor: Text, command: Command)
    ensures HandleCreateRoom(db, actor, command).Success?
            <==> ValidIdentifier(command.aggregateId) && ValidIdentifier(actor) && command.aggregateId !in db.rooms
  {
  }

  /** Joining, leaving and ready changes succeed exactly when the room is there and allows them. */
  lemma MemberSucceedsIff(db: Database, id: Text, a: R.RoomAction)
    requires Keyed(db)
    ensures MutateRoom(db, id, a).Success? <==> RoomAt(db, id).Some? && R.Apply(RoomAt(db, id).value, a).Done?
  {
    if RoomAt(db, id).Some? && R.Apply(RoomAt(db, id).value, a).Done? {
      R.OneEventPerTransition(RoomAt(db, id).value, a);
    }
  }

  /** The prepared setup is for this hand and complete, and the hand is new. */
  predicate SetupFits(db: Database, room: R.RoomState, handId: Text, mode: H.FairnessMode, env: Environment) {
    && env.setup.Ok? && env.setup.value.handId == handId && handId != [] && handId !in db.hands
    && (mode == H.ClientCustodied ==> env.setup.value.plan.provider == QUICKNET)
    && var s := env.setup.value;
      H.NewHand(mode, handId, room.id, HandSeats(room), s.serverCommitment, s.revealKeyId, s.plan, s.revealPublicKey,
                s.revealKeyBoundAt).Done?
  }

  lemma BeginningSucceedsIff(db: Database, stored: R.RoomSnapshot, s': R.RoomState, h: H.HandState, events: seq<Event>)
    requires stored.id in db.rooms && db.rooms[stored.id] == stored && s'.id == stored.id
    ensures WriteBeginning(db, stored, s', h, events).Success? <==> h.id !in db.hands
  {
  }

  lemma ConstructionSucceedsIff(db: Database, stored: R.RoomSnapshot, s': R.RoomState, roomEvents: seq<Event>,
                                handId: Text, mode: H.FairnessMode, env: Environment)
    requires stored.id in db.rooms && db.rooms[stored.id] == stored && s'.id == stored.id && env.setup.Ok?
    ensures ConstructHand(db, stored, s', roomEvents, handId, mode, env.setup.value).Success?
            <==> SetupFits(db, s', handId, mode, env)
  {
    var s := env.setup.value;
    var t := H.NewHand(mode, s.handId, stored.id, HandSeats(s'), s.serverCommitment, s.revealKeyId, s.plan,
                       s.revealPublicKey, s.revealKeyBoundAt);
    if t.Done? {
      BeginningSucceedsIff(db, stored, s', t.state, roomEvents + t.events);
    }
  }

  /** A hand starts exactly when the room allows it and the setup fits. */
  lemma StartSucceedsIff(db: Database, actor: Text, command: Command, handId: Text, mode: H.FairnessMode,
                         env: Environment)
    requires Keyed(db)
    ensures HandleStartRoomHand(db, actor, command, handId, mode, env).Success?
            <==> && RoomAt(db, command.aggregateId).Some?
                 && var t := R.StartHand(RoomAt(db, command.aggregateId).value, actor, handId, command.expectedVersion);
                   t.Done? && SetupFits(db, t.state, handId, mode, env)
  {
    if RoomAt(db, command.aggregateId).Some? {
      var s := RoomAt(db, command.aggregateId).value;
      var t := R.StartHand(s, actor, handId, command.expectedVersion);
      if t.Done? && env.setup.Ok? {
        R.StartHandEvent(s, actor, handId, command.expectedVersion);
        ConstructionSucceedsIff(db, db.rooms[command.aggregateId], t.state, t.events, handId, mode, env);
      }
    }
  }

  /** A changed hand is stored whenever its transition is done: its row cannot be in the way. */
  lemma StoringSucceedsIff(tx: Database, stored: H.HandSnapshot, t: Transition<H.HandState>)
    requires stored.body.id in tx.hands && tx.hands[stored.body.id] == stored
    requires t.Done? ==> t.state.id == stored.body.id
    ensures StoreHand(tx, stored, t).Success? <==> t.Done?
  {
  }

  lemma MutationSucceedsIff(db: Database, id: Text, commitOf: H.CommitFunction, a: H.HandAction)
    requires Keyed(db)
    ensures MutateHand(db, id, commitOf, a).Success? <==>
            HandAt(db, id).Some? && H.Apply(HandAt(db, id).value, commitOf, a).Done?
  {
    if HandAt(db, id).Some? {
      var t := H.Apply(HandAt(db, id).value, commitOf, a);
      if t.Done? {
        EventsAreNumbered(HandAt(db, id).value, commitOf, a);
      }
      StoringSucceedsIff(db, db.hands[id], t);
    }
  }

  /** A commitment succeeds exactly when the hand allows it and its round is not public yet. */
  lemma CommitSucceedsIff(db: Database, actor: Text, command: Command, commitment: Block, env: Environment)
    requires Keyed(db)
    ensures var h := HandAt(db, command.aggregateId);
            HandleCommit(db, actor, command, commitment, env).Success?
            <==> && h.Some? && CheckDeadline(h.value.plan, env.later).None?
                 && H.SubmitCommit(h.value, actor, commitment, command.expectedVersion).Done?
  {
    if HandAt(db, command.aggregateId).Some? {
      var h := HandAt(db, command.aggregateId).value;
      CommitIsNumbered(h, actor, commitment, command.expectedVersion);
      StoringSucceedsIff(db, db.hands[command.aggregateId],
                         H.SubmitCommit(h, actor, commitment, command.expectedVersion));
    }
  }

  /** The contribution was opened, its record has a new identifier and could be sealed. */
  predicate RecordFits(db: Database, env: Environment) {
    env.digest.Some? && env.recordId.Ok? && env.recordSealed && env.recordId.value !in db.records
  }

  lemma StoringRecordSucceedsIff(db: Database, stored: H.HandSnapshot, t: Transition<H.HandState>, recordId: Text,
                                 recordSealed: bool)
    requires stored.body.id in db.hands && db.hands[stored.body.id] == stored
    requires t.Done? ==> t.state.id == stored.body.id
    ensures StoreContribution(db, stored, t, recordId, recordSealed).Success? <==>
            t.Done? && recordSealed && recordId !in db.records
  {
    if recordId !in db.records {
      StoringSucceedsIff(InsertRecord(db, recordId).value, stored, t);
    }
  }

  /** The seat lookup in front of a reveal refuses nobody that the hand would allow. */
  lemma RevealLookupAgrees(h: H.HandState, commitOf: H.CommitFunction, actor: Text, digest: Block, ref: Text,
                           expected: nat)
    requires H.SubmitReveal(h, commitOf, actor, digest, ref, expected).Done?
    ensures ContributionSeat(h, actor).Some?
  {
  }

  /** A reveal succeeds exactly when the hand allows it, the record fits and the round is not public yet. */
  lemma RevealSucceedsIff(db: Database, actor: Text, command: Command, env: Environment)
    requires Keyed(db)
    ensures var h := HandAt(db, command.aggregateId);
            HandleReveal(db, actor, command, env).Success?
            <==> && h.Some? && RecordFits(db, env) && CheckDeadline(h.value.plan, env.now).None?
                 && H.SubmitReveal(h.value, env.commitOf, actor, env.digest.value, env.recordId.value,
                                   command.expectedVersion).Done?
  {
    if HandAt(db, command.aggregateId).Some? && env.digest.Some? && env.recordId.Ok? {
      var h := HandAt(db, command.aggregateId).value;
      var t := H.SubmitReveal(h, env.commitOf, actor, env.digest.value, env.recordId.value, command.expectedVersion);
      RevealIsNumbered(h, env.commitOf, actor, env.digest.value, env.recordId.value, command.expectedVersion);
      if t.Done? {
        RevealLookupAgrees(h, env.commitOf, actor, env.digest.value, env.recordId.value, command.expectedVersion);
      }
      StoringRecordSucceedsIff(db, db.hands[command.aggregateId], t, env.recordId.value, env.recordSealed);
    }
  }

  /** The checks in front of a custodied contribution refuse nothing that the hand would allow. */
  lemma CustodiedLookupAgrees(h: H.HandState, commitOf: H.CommitFunction, actor: Text, digest: Block, ref: Text,
                              expected: nat)
    requires H.SubmitCustodied(h, commitOf, actor, digest, ref, expected).Done?
    ensures h.mode == H.ClientCustodied && h.phase == H.Committing
    ensures ContributionSeat(h, actor).Some? && 1 <= ContributionSeat(h, actor).value <= 3
    ensures var current := h.contributions[ContributionSeat(h, actor).value - 1];
            current.commitment == ZeroBlock() && !current.revealed
  {
  }

  lemma CustodiedSucceedsIff(db: Database, actor: Text, command: Command, env: Environment)
    requires Keyed(db)
    ensures var h := HandAt(db, command.aggregateId);
            HandleContribution(db, actor, command, env).Success?
            <==> && h.Some? && RecordFits(db, env) && CheckDeadline(h.value.plan, env.now).None?
                 && H.SubmitCustodied(h.value, env.commitOf, actor, env.digest.value, env.recordId.value,
                                      command.expectedVersion).Done?
  {
    if HandAt(db, command.aggregateId).Some? && env.digest.Some? && env.recordId.Ok? {
      var h := HandAt(db, command.aggregateId).value;
      var t := H.SubmitCustodied(h, env.commitOf, actor, env.digest.value, env.recordId.value, command.expectedVersion);
      CustodiedIsNumbered(h, env.commitOf, actor, env.digest.value, env.recordId.value, command.expectedVersion);
      if t.Done? {
        CustodiedLookupAgrees(h, env.commitOf, actor, env.digest.value, env.recordId.value, command.expectedVersion);
      }
      StoringRecordSucceedsIff(db, db.hands[command.aggregateId], t, env.recordId.value, env.recordSealed);
    }
  }

  /** The beacon is locked exactly when the collaborator has verified it and the hand takes it. */
  lemma LockSucceedsIff(db: Database, command: Command, env: Environment)
    requires Keyed(db)
    ensures var h := HandAt(db, command.aggregateId);
            HandleLock(db, command, env).Success?
            <==> h.Some? && env.beacon.Ok?
                 && H.LockPublicBeacon(h.value, env.beacon.value, command.expectedVersion).Done?
  {
    if HandAt(db, command.aggregateId).Some? && env.beacon.Ok? {
      StoringSucceedsIff(db, db.hands[command.aggregateId],
                         H.LockPublicBeacon(HandAt(db, command.aggregateId).value, env.beacon.value,
                                            command.expectedVersion));
    }
  }

  /** A deal succeeds exactly when the hand is in its dealing phase and the live game starts. */
  lemma DealSucceedsIff(db: Database, command: Command, env: Environment)
    requires Keyed(db)
    ensures var h := HandAt(db, command.aggregateId);
            HandleDealt(db, command, env).Success?
            <==> && h.Some? && env.liveStart.None?
                 && h.value.phase == H.Dealing && h.value.version == command.expectedVersion
  {
    if HandAt(db, command.aggregateId).Some? {
      StoringSucceedsIff(db, db.hands[command.aggregateId],
                         H.Advance(HandAt(db, command.aggregateId).value, H.Dealing, H.Bidding,
                                   command.expectedVersion));
    }
  }
}
