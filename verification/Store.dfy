/** The durable store as a value, and the transaction operations the service uses on it. */
module Store {
  import opened Bytes
  import opened Text
  import opened Domain
  import RoomModel
  import HandModel

  datatype CommandName =
    | RoomCreate | RoomJoin | RoomLeave | RoomReadySet | RoomHandStart
    | HandCommitSubmit | HandContributionSubmit | HandRevealSubmit | HandBeaconLock | HandDealt
    | HandPlayStart | HandSettlement | HandComplete | HandCancel | HandAbort | HandExpire

  /** A command. `protocolOk` says that its protocol version is the one spoken here; `serverTimes` is
      never stored. */
  datatype Command = Command(
    protocolOk: bool, name: CommandName, commandId: Text, aggregate: AggregateType, aggregateId: Text,
    clientSeq: nat, expectedVersion: nat, issuedAt: int, expiresAt: int, payloadDigest: Block, serverTimes: bool)

  datatype Code =
    | CodeInvalidCommand | CodeForbidden | CodeNotFound | CodeNotSeated | CodeRoomFull | CodeRoomNotReady
    | CodeHandActive | CodeWrongPhase | CodeDuplicateContribution | CodeCommitmentMismatch | CodeBeaconMismatch
    | CodeVersionConflict | CodeSequenceConflict | CodeHandTerminal | CodeRevealInvalid | CodeConflict

  datatype EventRef = EventRef(aggregate: AggregateType, id: Text, name: EventName, version: nat)

  datatype CommandResult = CommandResult(
    commandId: Text, accepted: bool, duplicate: bool, aggregate: AggregateType, aggregateId: Text,
    aggregateVersion: nat, events: seq<EventRef>, failure: Option<Code>)

  /** A claimed command, completed when it has a result. */
  datatype StoredCommand = StoredCommand(command: Command, result: Option<CommandResult>)

  datatype OutboxEvent = OutboxEvent(event: Event, actor: Text, causation: Text)

  /** The row that serialises live actions of a hand: the last committed version and the owner's epoch. */
  datatype LiveWriter = LiveWriter(committed: nat, epoch: nat)

  datatype LedgerKey = LedgerKey(actor: Text, commandId: Text)

  datatype SequenceKey = SequenceKey(aggregate: AggregateType, aggregateId: Text, actor: Text)

  datatype Database = Database(
    ledger: map<LedgerKey, StoredCommand>,
    sequences: map<SequenceKey, nat>,
    rooms: map<Text, RoomModel.RoomSnapshot>,
    hands: map<Text, HandModel.HandSnapshot>,
    records: set<Text>,
    outbox: seq<OutboxEvent>,
    live: map<Text, LiveWriter>)

  const EMPTY_DATABASE := Database(map[], map[], map[], map[], {}, [], map[])

  /** mapBusinessError: which errors complete the command as rejected; the others roll back. */
  function BusinessCode(e: Error): Option<Code> {
    match e
    case VersionConflict(_, _) => Some(CodeVersionConflict)
    case NotFound => Some(CodeNotFound)
    case AlreadyExists => Some(CodeConflict)
    case InvalidCommand => Some(CodeInvalidCommand)
    case InvalidArgument => Some(CodeInvalidCommand)
    case NoStateChange => Some(CodeInvalidCommand)
    case RevealInvalid => Some(CodeRevealInvalid)
    case Forbidden => Some(CodeForbidden)
    case OwnerMustRemain => Some(CodeForbidden)
    case NotSeated => Some(CodeNotSeated)
    case RoomFull => Some(CodeRoomFull)
    case RoomNotReady => Some(CodeRoomNotReady)
    case HandIsActive => Some(CodeHandActive)
    case WrongPhase => Some(CodeWrongPhase)
    case HandNotActive => Some(CodeWrongPhase)
    case RoomIsClosed => Some(CodeWrongPhase)
    case AlreadySeated => Some(CodeWrongPhase)
    case DuplicateContribution => Some(CodeDuplicateContribution)
    case CommitmentMismatch => Some(CodeCommitmentMismatch)
    case BeaconMismatch => Some(CodeBeaconMismatch)
    case HandIsTerminal => Some(CodeHandTerminal)
    case OptimisticConflict => None
    case ProtectionFailed => None
    case LiveProgressed => None
    case Infrastructure => None
  }

  // ------------------------------------------------------------------ operations

  function LastSequence(db: Database, key: SequenceKey): nat {
    if key in db.sequences then db.sequences[key] else 0
  }

  function SaveSequence(db: Database, key: SequenceKey, value: nat): Database {
    db.(sequences := db.sequences[key := value])
  }

  /** An existing row is returned as it is; otherwise the command is inserted without a result. */
  function Claim(db: Database, key: LedgerKey, command: Command): (r: (Database, StoredCommand))
    ensures key in r.0.ledger && r.0.ledger[key] == r.1
  {
    if key in db.ledger then (db, db.ledger[key])
    else
      var stored := StoredCommand(command, None);
      (db.(ledger := db.ledger[key := stored]), stored)
  }

  function Complete(db: Database, key: LedgerKey, result: CommandResult): Database
    requires key in db.ledger
  {
    db.(ledger := db.ledger[key := db.ledger[key].(result := Some(result))])
  }

  function InsertRoom(db: Database, t: RoomModel.RoomSnapshot): Result<Database> {
    if t.id in db.rooms then Err(AlreadyExists) else Ok(db.(rooms := db.rooms[t.id := t]))
  }

  function LoadRoom(db: Database, id: Text): Result<RoomModel.RoomSnapshot> {
    if id in db.rooms then Ok(db.rooms[id]) else Err(NotFound)
  }

  function UpdateRoom(db: Database, t: RoomModel.RoomSnapshot, expected: nat): Result<Database> {
    if t.id !in db.rooms || db.rooms[t.id].version != expected then Err(OptimisticConflict)
    else Ok(db.(rooms := db.rooms[t.id := t]))
  }

  function InsertHand(db: Database, t: HandModel.HandSnapshot): Result<Database> {
    if t.body.id in db.hands then Err(AlreadyExists) else Ok(db.(hands := db.hands[t.body.id := t]))
  }

  function LoadHand(db: Database, id: Text): Result<HandModel.HandSnapshot> {
    if id in db.hands then Ok(db.hands[id]) else Err(NotFound)
  }

  function UpdateHand(db: Database, t: HandModel.HandSnapshot, expected: nat): Result<Database> {
    if t.body.id !in db.hands || db.hands[t.body.id].body.version != expected then Err(OptimisticConflict)
    else Ok(db.(hands := db.hands[t.body.id := t]))
  }

  function InsertRecord(db: Database, id: Text): Result<Database> {
    if id in db.records then Err(AlreadyExists) else Ok(db.(records := db.records + {id}))
  }

  function AppendOutbox(db: Database, events: seq<OutboxEvent>): Database {
    db.(outbox := db.outbox + events)
  }

  /** The hand's live actions have a writer row. */
  predicate HasWriter(db: Database, hand: Text) {
    hand in db.live
  }

  /** Any writer that still holds the old epoch is cut off. */
  function Fence(db: Database, hand: Text): Database
    requires HasWriter(db, hand)
  {
    db.(live := db.live[hand := db.live[hand].(epoch := db.live[hand].epoch + 1)])
  }

  /** A live action commits only under the current epoch, on the version it expects. */
  function CommitLive(db: Database, hand: Text, epoch: nat, expected: nat): Database {
    if !HasWriter(db, hand) || db.live[hand].epoch != epoch || db.live[hand].committed != expected then db
    else db.(live := db.live[hand := db.live[hand].(committed := expected + 1)])
  }
}
