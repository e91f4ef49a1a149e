/** Executing one command in one transaction: claim, check, mutate, append events, complete. */
module Service {
  import opened Bytes
  import opened Text
  import opened Domain
  import opened Store
  import opened Handlers
  import H = HandModel

  const MAX_COMMAND_TTL := 120_000_000_000
  const MAX_CLOCK_SKEW := 30_000_000_000
  const MILLISECOND := 1_000_000
  /** Go's zero time.Time, in nanoseconds of Unix time. */
  const ZERO_TIME := -62_135_596_800_000_000_000

  function Bound(command: Command, op: Operation, env: Environment): Command {
    command.(payloadDigest := env.payloadDigest(command.name, op))
  }

  /** validateCommandIdentity. */
  predicate IdentityValid(actor: Text, command: Command, op: Operation) {
    && !Blank(actor) && |actor| <= 128
    && command.protocolOk && command.name == NameOf(op) && command.aggregate == AggregateOf(op)
    && !Blank(command.commandId) && |command.commandId| <= 128
    && !Blank(command.aggregateId) && |command.aggregateId| <= 128
    && command.clientSeq != 0
    && (op.CreateRoom? <==> command.expectedVersion == 0)
  }

  /** validateFreshness. */
  predicate Fresh(command: Command, now: int) {
    && command.issuedAt != ZERO_TIME && command.expiresAt != ZERO_TIME
    && command.issuedAt % MILLISECOND == 0 && command.expiresAt % MILLISECOND == 0
    && command.expiresAt > command.issuedAt && command.expiresAt - command.issuedAt <= MAX_COMMAND_TTL
    && command.issuedAt <= now + MAX_CLOCK_SKEW && now <= command.expiresAt
  }

  /** sameCommand: the times count unless the transport generated them. */
  predicate SameCommand(left: Command, right: Command) {
    && left.(issuedAt := 0, expiresAt := 0, serverTimes := false) == right.(issuedAt := 0, expiresAt := 0,
       serverTimes := false)
    && (right.serverTimes || (left.issuedAt == right.issuedAt && left.expiresAt == right.expiresAt))
  }

  function Rejected(command: Command, code: Code, version: nat): CommandResult {
    CommandResult(command.commandId, false, false, command.aggregate, command.aggregateId, version, [], Some(code))
  }

  function RejectedVersion(e: Error, currentVersion: nat): nat {
    if e.VersionConflict? then e.actual else currentVersion
  }

  function OutboxOf(events: seq<Event>, actor: Text, causation: Text): (o: seq<OutboxEvent>)
    ensures |o| == |events|
  {
    seq(|events|, i requires 0 <= i < |events| => OutboxEvent(events[i], actor, causation))
  }

  function RefsOf(events: seq<Event>): (o: seq<EventRef>)
    ensures |o| == |events|
  {
    seq(|events|, i requires 0 <= i < |events| =>
      EventRef(events[i].aggregate, events[i].id, events[i].name, events[i].version))
  }

  function Accepted(command: Command, version: nat, events: seq<Event>): CommandResult {
    CommandResult(command.commandId, true, false, command.aggregate, command.aggregateId, version, RefsOf(events), None)
  }

  function KeyOf(actor: Text, command: Command): LedgerKey {
    LedgerKey(actor, command.commandId)
  }

  function SequenceOf(actor: Text, command: Command): SequenceKey {
    SequenceKey(command.aggregate, command.aggregateId, actor)
  }

  /** What the transaction leaves and replies when the handler has run. */
  function Settle(before: Database, actor: Text, command: Command, handled: Handled, env: Environment): (Database,
      Result<CommandResult>)
    requires KeyOf(actor, command) in handled.db.ledger
  {
    var key, sequence := KeyOf(actor, command), SequenceOf(actor, command);
    match handled
    case Failure(tx, e, currentVersion) =>
      (match BusinessCode(e)
       case None => (before, Err(e))
       case Some(code) =>
         var result := Rejected(command, code, RejectedVersion(e, currentVersion));
         (Complete(SaveSequence(tx, sequence, command.clientSeq), key, result), Ok(result)))
    case Success(tx, version, events) =>
      if !env.eventIds then (before, Err(Infrastructure))
      else
        var result := Accepted(command, version, events);
        var appended := AppendOutbox(tx, OutboxOf(events, actor, command.commandId));
        (Complete(SaveSequence(appended, sequence, command.clientSeq), key, result), Ok(result))
  }

  /** One delivery of a command. An error reply leaves the store as it was. */
  function Step(db: Database, actor: Text, received: Command, op: Operation, env: Environment): (Database,
      Result<CommandResult>) {
    var command := Bound(received, op, env);
    if op.StartRoomHand? && op.mode == H.UnknownMode then (db, Err(InvalidCommand))
    else if !IdentityValid(actor, command, op) then (db, Ok(Rejected(command, CodeInvalidCommand, 0)))
    else if env.storeFails then (db, Err(Infrastructure))
    else Attempt(db, actor, command, env, Handle(Claim(db, KeyOf(actor, command), command).0, actor, command, op, env))
  }

  /** The transaction, with `handled` for what the handler does if it gets to run. */
  function Attempt(db: Database, actor: Text, command: Command, env: Environment, handled: Handled): (Database,
      Result<CommandResult>)
    requires KeyOf(actor, command) in handled.db.ledger
  {
    var key := KeyOf(actor, command);
    var (tx, stored) := Claim(db, key, command);
    if !SameCommand(stored.command, command) then
      (tx, Ok(Rejected(command, CodeConflict, if stored.result.Some? then stored.result.value.aggregateVersion else 0)))
    else if stored.result.Some? then (tx, Ok(stored.result.value.(duplicate := true)))
    else if !Fresh(command, env.now) then
      var result := Rejected(command, CodeInvalidCommand, 0);
      (Complete(tx, key, result), Ok(result))
    else if command.clientSeq <= LastSequence(tx, SequenceOf(actor, command)) then
      var result := Rejected(command, CodeSequenceConflict, 0);
      (Complete(tx, key, result), Ok(result))
    else Settle(db, actor, command, handled, env)
  }

  class DurableService {
    var db: Database

    constructor ()
      ensures db == EMPTY_DATABASE
    {
      db := EMPTY_DATABASE;
    }

    method BuildOutbox(actor: Text, command: Command, events: seq<Event>)
      returns (outbox: seq<OutboxEvent>, refs: seq<EventRef>)
      ensures outbox == OutboxOf(events, actor, command.commandId) && refs == RefsOf(events)
    {
      outbox, refs := [], [];
      for i := 0 to |events|
        invariant outbox == OutboxOf(events, actor, command.commandId)[..i]
        invariant refs == RefsOf(events)[..i]
      {
        var event := events[i];
        outbox := outbox + [OutboxEvent(event, actor, command.commandId)];
        refs := refs + [EventRef(event.aggregate, event.id, event.name, event.version)];
      }
    }

    /** `tx` is the transaction's view; leaving without assigning `db` is the rollback. */
    method Execute(actor: Text, received: Command, op: Operation, env: Environment) returns (r: Result<CommandResult>)
      modifies this
      ensures (db, r) == Step(old(db), actor, received, op, env)
    {
      if op.StartRoomHand? && op.mode == H.UnknownMode {
        return Err(InvalidCommand);
      }
      var command := received.(payloadDigest := env.payloadDigest(received.name, op));
      if !IdentityValid(actor, command, op) {
        return Ok(Rejected(command, CodeInvalidCommand, 0));
      }
      if env.storeFails {
        return Err(Infrastructure);
      }
      var key, sequence := KeyOf(actor, command), SequenceOf(actor, command);
      var (tx, stored) := Claim(db, key, command);
      if !SameCommand(stored.command, command) {
        var currentVersion := 0;
        if stored.result.Some? {
          currentVersion := stored.result.value.aggregateVersion;
        }
        db := tx;
        return Ok(Rejected(command, CodeConflict, currentVersion));
      }
      if stored.result.Some? {
        db := tx;
        return Ok(stored.result.value.(duplicate := true));
      }
      if !Fresh(command, env.now) {
        var expired := Rejected(command, CodeInvalidCommand, 0);
        db := Complete(tx, key, expired);
        return Ok(expired);
      }
      var last := LastSequence(tx, sequence);
      if command.clientSeq <= last {
        var late := Rejected(command, CodeSequenceConflict, 0);
        db := Complete(tx, key, late);
        return Ok(late);
      }
      var handled := Handle(tx, actor, command, op, env);
      r := Finish(actor, command, handled, env);
    }

    /** The part of Execute after the handler. */
    method Finish(actor: Text, command: Command, handled: Handled, env: Environment) returns (r: Result<CommandResult>)
      requires KeyOf(actor, command) in handled.db.ledger
      modifies this
      ensures (db, r) == Settle(old(db), actor, command, handled, env)
    {
      var key, sequence := KeyOf(actor, command), SequenceOf(actor, command);
      var tx := handled.db;
      if handled.Failure? {
        var code := BusinessCode(handled.error);
        if code.None? {
          return Err(handled.error);
        }
        var refused := Rejected(command, code.value, RejectedVersion(handled.error, handled.currentVersion));
        tx := SaveSequence(tx, sequence, command.clientSeq);
        db := Complete(tx, key, refused);
        return Ok(refused);
      }
      if !env.eventIds {
        return Err(Infrastructure);
      }
      var outbox, refs := BuildOutbox(actor, command, handled.events);
      tx := AppendOutbox(tx, outbox);
      tx := SaveSequence(tx, sequence, command.clientSeq);
      var result := CommandResult(command.commandId, true, false, command.aggregate, command.aggregateId,
                                  handled.version, refs, None);
      db := Complete(tx, key, result);
      return Ok(result);
    }
  }
}
