/** What each command does inside its transaction: load, restore, change, write. */
module Handlers {
  import opened Bytes
  import opened Text
  import opened Domain
  import opened Store
  import opened Quicknet
  import R = RoomModel
  import H = HandModel

  datatype HandSetup = HandSetup(
    handId: Text, serverCommitment: Block, revealKeyId: Text, revealPublicKey: Block, revealKeyBoundAt: nat,
        plan: H.BeaconPlan)

  /** The commands' payloads. */
  datatype Operation =
    | CreateRoom | JoinRoom | LeaveRoom | SetRoomReady(ready: bool)
    | StartRoomHand(handId: Text, mode: H.FairnessMode)
    | SubmitHandCommit(commitment: Block)
    | SubmitHandReveal
    | SubmitHandContribution
    | LockHandBeacon
    | MarkHandDealt | StartHandPlaying | StartHandSettlement | CompleteHand
    | CancelHand(reason: Text) | AbortHand(reason: Text) | ExpireHand(reason: Text, expectedLiveVersion: nat)

  /** What the service's collaborators answer during one command: clock readings, the prepared setup, the
      digest of the decrypted contribution, new identifiers, sealing, the verified beacon, the error of starting
      the live game if that fails. */
  datatype Environment = Environment(
    now: int, later: int, commitOf: H.CommitFunction, payloadDigest: (CommandName, Operation) -> Block,
    setup: Result<HandSetup>, digest: Option<Block>, recordId: Result<Text>, recordSealed: bool,
    beacon: Result<H.BeaconValue>, liveStart: Option<Error>, durabilityEnforced: bool, eventIds: bool, storeFails: bool)

  /** A handler's outcome with everything it wrote, also when it fails. */
  datatype Handled =
    | Success(db: Database, version: nat, events: seq<Event>)
    | Failure(db: Database, error: Error, currentVersion: nat)

  /** Handlers never touch the ledger, the sequences or the outbox. */
  predicate SameBooks(db: Database, tx: Database) {
    tx.ledger == db.ledger && tx.sequences == db.sequences && tx.outbox == db.outbox
  }

  /** A failure that completes the command as rejected has written nothing. */
  predicate CleanRejection(db: Database, r: Handled) {
    r.Failure? && BusinessCode(r.error).Some? ==> r.db == db
  }

  /** The live writers are as they were, or one of them has been fenced. */
  ghost predicate LiveFenced(db: Database, tx: Database) {
    tx.live == db.live || exists hand :: HasWriter(db, hand) && tx.live == Fence(db, hand).live
  }

  // ------------------------------------------------------------------ rooms

  function HandleCreateRoom(db: Database, actor: Text, command: Command): (r: Handled)
    ensures SameBooks(db, r.db) && CleanRejection(db, r) && r.db.live == db.live
  {
    match R.NewRoom(command.aggregateId, actor)
    case Refused(e) => Failure(db, e, 0)
    case Done(s, events) =>
      match InsertRoom(db, R.Snapshot(s))
      case Err(e) => Failure(db, e, 0)
      case Ok(db') => Success(db', s.version, events)
  }

  /** Load, restore and change a room, and write it back. */
  function MutateRoom(db: Database, id: Text, a: R.RoomAction): (r: Handled)
    ensures SameBooks(db, r.db) && CleanRejection(db, r) && r.db.live == db.live
  {
    match LoadRoom(db, id)
    case Err(e) => Failure(db, e, 0)
    case Ok(stored) =>
      match R.Restore(stored)
      case Err(e) => Failure(db, e, 0)
      case Ok(s) =>
        match R.Apply(s, a)
        case Refused(e) => Failure(db, e, stored.version)
        case Done(s', events) =>
          match UpdateRoom(db, R.Snapshot(s'), stored.version)
          case Err(e) => Failure(db, e, 0)
          case Ok(db') => Success(db', s'.version, events)
  }

  function HandSeats(s: R.RoomState): H.ThreeHandSeats {
    [H.HandSeat(1, s.seats[0].account), H.HandSeat(2, s.seats[1].account), H.HandSeat(3, s.seats[2].account)]
  }

  function HandleStartRoomHand(db: Database, actor: Text, command: Command, handId: Text, mode: H.FairnessMode,
                               env: Environment): (r: Handled)
    ensures SameBooks(db, r.db) && CleanRejection(db, r) && r.db.live == db.live
  {
    match LoadRoom(db, command.aggregateId)
    case Err(e) => Failure(db, e, 0)
    case Ok(stored) =>
      match R.Restore(stored)
      case Err(e) => Failure(db, e, 0)
      case Ok(s) =>
        match R.StartHand(s, actor, handId, command.expectedVersion)
        case Refused(e) => Failure(db, e, stored.version)
        case Done(s', roomEvents) =>
          if env.setup.Err? then Failure(db, env.setup.error, 0)
          else ConstructHand(db, stored, s', roomEvents, handId, mode, env.setup.value)
  }

  function ConstructHand(db: Database, stored: R.RoomSnapshot, s': R.RoomState, roomEvents: seq<Event>, handId: Text,
                         mode: H.FairnessMode, setup: HandSetup): (r: Handled)
    ensures SameBooks(db, r.db) && CleanRejection(db, r) && r.db.live == db.live
  {
    if setup.handId != handId || setup.handId == [] then Failure(db, InvalidCommand, 0)
    else if mode == H.ClientCustodied && setup.plan.provider != QUICKNET then Failure(db, InvalidCommand, 0)
    else
      match H.NewHand(mode, setup.handId, stored.id, HandSeats(s'), setup.serverCommitment, setup.revealKeyId,
                      setup.plan, setup.revealPublicKey, setup.revealKeyBoundAt)
      case Refused(e) => Failure(db, e, 0)
      case Done(h, handEvents) => WriteBeginning(db, stored, s', h, roomEvents + handEvents)
  }

  function WriteBeginning(db: Database, stored: R.RoomSnapshot, s': R.RoomState, h: H.HandState,
                          events: seq<Event>): (r: Handled)
    ensures SameBooks(db, r.db) && CleanRejection(db, r) && r.db.live == db.live
  {
    match InsertHand(db, H.Snapshot(h))
    case Err(e) => Failure(db, e, 0)
    case Ok(inserted) =>
      match UpdateRoom(inserted, R.Snapshot(s'), stored.version)
      case Err(e) => Failure(inserted, e, 0)
      case Ok(db') => Success(db', s'.version, events)
  }

  // ------------------------------------------------------------------ hands

  /** Write a changed hand back, behind `db` as the handler has it by then. */
  function StoreHand(db: Database, stored: H.HandSnapshot, t: Transition<H.HandState>): (r: Handled)
    ensures SameBooks(db, r.db) && CleanRejection(db, r) && r.db.live == db.live
    ensures t.Done? && r.Failure? ==> r.error == OptimisticConflict
  {
    match t
    case Refused(e) => Failure(db, e, stored.body.version)
    case Done(h', events) =>
      match UpdateHand(db, H.Snapshot(h'), stored.body.version)
      case Err(e) => Failure(db, e, 0)
      case Ok(db') => Success(db', h'.version, events)
  }

  function MutateHand(db: Database, id: Text, commitOf: H.CommitFunction, a: H.HandAction): (r: Handled)
    ensures SameBooks(db, r.db) && CleanRejection(db, r) && r.db.live == db.live
  {
    match LoadHand(db, id)
    case Err(e) => Failure(db, e, 0)
    case Ok(stored) =>
      match H.Restore(stored)
      case Err(e) => Failure(db, e, 0)
      case Ok(h) => StoreHand(db, stored, H.Apply(h, commitOf, a))
  }

  /** The commitment's deadline is read from the clock inside the mutation. */
  function HandleCommit(db: Database, actor: Text, command: Command, commitment: Block, env: Environment): (r: Handled)
    ensures SameBooks(db, r.db) && CleanRejection(db, r) && r.db.live == db.live
  {
    match LoadHand(db, command.aggregateId)
    case Err(e) => Failure(db, e, 0)
    case Ok(stored) =>
      match H.Restore(stored)
      case Err(e) => Failure(db, e, 0)
      case Ok(h) =>
        if CheckDeadline(h.plan, env.later).Some?
            then Failure(db, CheckDeadline(h.plan, env.later).value, stored.body.version)
        else StoreHand(db, stored, H.SubmitCommit(h, actor, commitment, command.expectedVersion))
  }

  /** resolveHandContribution: the actor's seat, by account. */
  function ContributionSeat(h: H.HandState, actor: Text): Option<nat> {
    if h.seats[0].account == actor then Some(h.seats[0].seat)
    else if h.seats[1].account == actor then Some(h.seats[1].seat)
    else if h.seats[2].account == actor then Some(h.seats[2].seat)
    else None
  }

  /** After the domain has accepted a contribution: seal, insert the protected record, write the hand. */
  function StoreContribution(db: Database, stored: H.HandSnapshot, t: Transition<H.HandState>, recordId: Text,
                             recordSealed: bool): (r: Handled)
    ensures SameBooks(db, r.db) && CleanRejection(db, r) && r.db.live == db.live
  {
    match t
    case Refused(e) => Failure(db, e, stored.body.version)
    case Done(_, _) =>
      if !recordSealed then Failure(db, ProtectionFailed, 0)
      else
        match InsertRecord(db, recordId)
        case Err(e) => Failure(db, e, 0)
        case Ok(db') => StoreHand(db', stored, t)
  }

  function HandleReveal(db: Database, actor: Text, command: Command, env: Environment): (r: Handled)
    ensures SameBooks(db, r.db) && CleanRejection(db, r) && r.db.live == db.live
  {
    match LoadHand(db, command.aggregateId)
    case Err(e) => Failure(db, e, 0)
    case Ok(stored) =>
      match H.Restore(stored)
      case Err(e) => Failure(db, e, 0)
      case Ok(h) =>
        var version := stored.body.version;
        if CheckDeadline(h.plan, env.now).Some? then Failure(db, CheckDeadline(h.plan, env.now).value, version)
        else if ContributionSeat(h, actor).None? then Failure(db, NotSeated, version)
        else if env.digest.None? then Failure(db, RevealInvalid, version)
        else if env.recordId.Err? then Failure(db, env.recordId.error, 0)
        else
          StoreContribution(db, stored, H.SubmitReveal(h, env.commitOf, actor, env.digest.value, env.recordId.value,
                                                       command.expectedVersion),
                            env.recordId.value, env.recordSealed)
  }

  function HandleContribution(db: Database, actor: Text, command: Command, env: Environment): (r: Handled)
    ensures SameBooks(db, r.db) && CleanRejection(db, r) && r.db.live == db.live
  {
    match LoadHand(db, command.aggregateId)
    case Err(e) => Failure(db, e, 0)
    case Ok(stored) =>
      if stored.body.mode != H.ClientCustodied then Failure(db, WrongPhase, stored.body.version)
      else
        match H.Restore(stored)
        case Err(e) => Failure(db, e, 0)
        case Ok(h) =>
          var version := stored.body.version;
          if CheckDeadline(h.plan, env.now).Some? then Failure(db, CheckDeadline(h.plan, env.now).value, version)
          else
            match ContributionSeat(h, actor)
            case None => Failure(db, NotSeated, version)
            case Some(seat) =>
              if h.phase != H.Committing || !(1 <= seat <= 3)
                 || h.contributions[seat - 1].commitment != ZeroBlock() || h.contributions[seat - 1].revealed
              then Failure(db, WrongPhase, version)
              else if env.digest.None? then Failure(db, RevealInvalid, version)
              else if env.recordId.Err? then Failure(db, env.recordId.error, 0)
              else
                StoreContribution(db, stored, H.SubmitCustodied(h, env.commitOf, actor, env.digest.value,
                                                                env.recordId.value, command.expectedVersion),
                                  env.recordId.value, env.recordSealed)
  }

  function HandleLock(db: Database, command: Command, env: Environment): (r: Handled)
    ensures SameBooks(db, r.db) && CleanRejection(db, r) && r.db.live == db.live
  {
    match LoadHand(db, command.aggregateId)
    case Err(e) => Failure(db, e, 0)
    case Ok(stored) =>
      match H.Restore(stored)
      case Err(e) => Failure(db, e, 0)
      case Ok(h) =>
        match env.beacon
        case Err(e) => Failure(db, e, stored.body.version)
        case Ok(value) => StoreHand(db, stored, H.LockPublicBeacon(h, value, command.expectedVersion))
  }

  function HandleDealt(db: Database, command: Command, env: Environment): (r: Handled)
    ensures SameBooks(db, r.db) && CleanRejection(db, r) && r.db.live == db.live
  {
    match LoadHand(db, command.aggregateId)
    case Err(e) => Failure(db, e, 0)
    case Ok(stored) =>
      match H.Restore(stored)
      case Err(e) => Failure(db, e, 0)
      case Ok(h) =>
        var t := H.Advance(h, H.Dealing, H.Bidding, command.expectedVersion);
        if t.Done? && env.liveStart.Some? then Failure(db, env.liveStart.value, 0) else StoreHand(db, stored, t)
  }

  /** The live game has a final record when the hand completed or was stopped after dealing. */
  function ArchiveAvailable(before: H.Phase, after: H.Phase): bool {
    after == H.Completed || before in {H.Bidding, H.Playing, H.Settling}
  }

  /** An expiry that carries a live version is checked against the live writer when durability is enforced. */
  predicate Guarded(op: Operation, env: Environment) {
    op.ExpireHand? && op.expectedLiveVersion != 0 && env.durabilityEnforced
  }

  /** The guard of such an expiry, under the live writer's row lock. */
  function GuardExpiry(db: Database, hand: Text, op: Operation, env: Environment): Result<Database> {
    if !Guarded(op, env) then Ok(db)
    else if !HasWriter(db, hand) then Err(Infrastructure)
    else if db.live[hand].committed > op.expectedLiveVersion then Err(LiveProgressed)
    else Ok(Fence(db, hand))
  }

  /** End a hand and release its room in one transaction. */
  function HandleTerminate(db: Database, command: Command, op: Operation, a: H.HandAction,
                           env: Environment): (r: Handled)
    ensures SameBooks(db, r.db) && CleanRejection(db, r) && LiveFenced(db, r.db)
  {
    match LoadHand(db, command.aggregateId)
    case Err(e) => Failure(db, e, 0)
    case Ok(stored) =>
      match H.Restore(stored)
      case Err(e) => Failure(db, e, 0)
      case Ok(h) =>
        match H.Apply(h, env.commitOf, a)
        case Refused(e) => Failure(db, e, stored.body.version)
        case Done(h', handEvents) =>
          if !H.Terminal(h'.phase) then Failure(db, Infrastructure, 0)
          else ReleaseRoom(db, stored, h', handEvents, op, env)
  }

  function ReleaseRoom(db: Database, stored: H.HandSnapshot, h': H.HandState, handEvents: seq<Event>, op: Operation,
                       env: Environment): (r: Handled)
    ensures SameBooks(db, r.db) && CleanRejection(db, r) && LiveFenced(db, r.db)
  {
    match LoadRoom(db, stored.body.roomId)
    case Err(e) => Failure(db, e, 0)
    case Ok(room) =>
      match R.Restore(room)
      case Err(e) => Failure(db, e, 0)
      case Ok(s) =>
        match R.FinishHand(s, stored.body.id, room.version, ArchiveAvailable(stored.body.phase, h'.phase))
        case Refused(e) => Failure(db, e, 0)
        case Done(s', roomEvents) =>
          match GuardExpiry(db, stored.body.id, op, env)
          case Err(e) => Failure(db, e, 0)
          case Ok(guarded) => WriteEnding(guarded, stored, room, h', s', handEvents + roomEvents)
  }

  function WriteEnding(db: Database, stored: H.HandSnapshot, room: R.RoomSnapshot, h': H.HandState, s': R.RoomState,
                       events: seq<Event>): (r: Handled)
    ensures SameBooks(db, r.db) && r.db.live == db.live
    ensures r.Failure? ==> r.error == OptimisticConflict
  {
    match UpdateHand(db, H.Snapshot(h'), stored.body.version)
    case Err(e) => Failure(db, e, 0)
    case Ok(ended) =>
      match UpdateRoom(ended, R.Snapshot(s'), room.version)
      case Err(e) => Failure(ended, e, 0)
      case Ok(db') => Success(db', h'.version, events)
  }

  // ------------------------------------------------------------------ dispatch

  function Handle(db: Database, actor: Text, command: Command, op: Operation, env: Environment): (r: Handled)
    ensures SameBooks(db, r.db) && CleanRejection(db, r) && LiveFenced(db, r.db)
  {
    var id, expected := command.aggregateId, command.expectedVersion;
    match op
    case CreateRoom => HandleCreateRoom(db, actor, command)
    case JoinRoom => MutateRoom(db, id, R.JoinAction(actor, expected))
    case LeaveRoom => MutateRoom(db, id, R.LeaveAction(actor, expected))
    case SetRoomReady(ready) => MutateRoom(db, id, R.SetReadyAction(actor, ready, expected))
    case StartRoomHand(handId, mode) => HandleStartRoomHand(db, actor, command, handId, mode, env)
    case SubmitHandCommit(commitment) => HandleCommit(db, actor, command, commitment, env)
    case SubmitHandReveal => HandleReveal(db, actor, command, env)
    case SubmitHandContribution => HandleContribution(db, actor, command, env)
    case LockHandBeacon => HandleLock(db, command, env)
    case MarkHandDealt => HandleDealt(db, command, env)
    case StartHandPlaying => MutateHand(db, id, env.commitOf, H.PlayAction(expected))
    case StartHandSettlement => MutateHand(db, id, env.commitOf, H.SettleAction(expected))
    case CompleteHand => HandleTerminate(db, command, op, H.CompleteAction(expected), env)
    case CancelHand(reason) => HandleTerminate(db, command, op, H.CancelAction(reason, expected), env)
    case AbortHand(reason) => HandleTerminate(db, command, op, H.AbortAction(reason, expected), env)
    case ExpireHand(reason, _) => HandleTerminate(db, command, op, H.ExpireAction(reason, expected), env)
  }

  function NameOf(op: Operation): CommandName {
    match op
    case CreateRoom => RoomCreate
    case JoinRoom => RoomJoin
    case LeaveRoom => RoomLeave
    case SetRoomReady(_) => RoomReadySet
    case StartRoomHand(_, _) => RoomHandStart
    case SubmitHandCommit(_) => HandCommitSubmit
    case SubmitHandReveal => HandRevealSubmit
    case SubmitHandContribution => HandContributionSubmit
    case LockHandBeacon => HandBeaconLock
    case MarkHandDealt => HandDealt
    case StartHandPlaying => HandPlayStart
    case StartHandSettlement => HandSettlement
    case CompleteHand => HandComplete
    case CancelHand(_) => HandCancel
    case AbortHand(_) => HandAbort
    case ExpireHand(_, _) => HandExpire
  }

  predicate ConcernsRoom(op: Operation) {
    op.CreateRoom? || op.JoinRoom? || op.LeaveRoom? || op.SetRoomReady? || op.StartRoomHand?
  }

  function AggregateOf(op: Operation): AggregateType {
    if ConcernsRoom(op) then AggregateRoom else AggregateHand
  }
}
