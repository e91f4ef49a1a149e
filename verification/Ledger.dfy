/** The command ledger over whole runs: results are final, replays have no effect, sequences only grow, and
    every reachable store is consistent. */
module Ledger {
  import opened Bytes
  import opened Text
  import opened Domain
  import opened Store
  import opened Handlers
  import opened Service
  import opened Effects
  import opened Outbox
  import opened StoreInvariant
  import R = RoomModel
  import H = HandModel

  // ------------------------------------------------------------------ the invariant

  /** A command's row: completed, for the command it was claimed for, rejected without events or accepted. */
  ghost predicate EntryFine(key: LedgerKey, entry: StoredCommand) {
    && entry.result.Some? && entry.command.commandId == key.commandId
    && ResultFine(entry.command, entry.result.value)
  }

  predicate ResultFine(command: Command, r: CommandResult) {
    && r.commandId == command.commandId && r.aggregate == command.aggregate && r.aggregateId == command.aggregateId
    && !r.duplicate && (r.accepted <==> r.failure.None?)
    && if r.accepted then AcceptanceFine(command, r) else r.events == []
  }

  /** An accepted command changed at most one room, and a room command exactly one, by one version. */
  predicate AcceptanceFine(command: Command, r: CommandResult) {
    && r.events != [] && r.aggregateVersion > 0 && RoomChanges(r.events) <= 1
    && (command.aggregate == AggregateRoom ==>
        RoomChanges(r.events) == 1 && r.aggregateVersion == command.expectedVersion + 1)
  }

  ghost predicate Completed(ledger: map<LedgerKey, StoredCommand>) {
    Every(ledger, (key, entry) => EntryFine(key, entry))
  }

  function EventsOf(ledger: map<LedgerKey, StoredCommand>, key: LedgerKey): seq<EventRef> {
    if key in ledger && ledger[key].result.Some? then ledger[key].result.value.events else []
  }

  /** The log holds, for every command, exactly the events its stored result lists. */
  ghost predicate Attributed(outbox: seq<OutboxEvent>, ledger: map<LedgerKey, StoredCommand>) {
    forall key :: CausedBy(outbox, key) == EventsOf(ledger, key)
  }

  ghost predicate Consistent(db: Database) {
    && Loadable(db) && Linked(db) && GapFree(db.outbox, db)
    && Completed(db.ledger) && Attributed(db.outbox, db.ledger)
  }

  lemma EmptyIsConsistent()
    ensures Consistent(EMPTY_DATABASE)
  {
    var db := EMPTY_DATABASE;
    forall room, hand ensures LinkedAt(db, room, hand) {
    }
    forall a, id ensures VersionsOf(db.outbox, a, id) == UpTo(VersionIn(db, a, id)) {
    }
  }

  // ------------------------------------------------------------------ what one delivery does

  datatype Outcome =
    | Unchanged
    | RejectedNow(result: CommandResult, sequences: map<SequenceKey, nat>)
    | AcceptedNow(e: Effect, tx: Database, events: seq<Event>)

  function ClaimedBy(db: Database, actor: Text, command: Command): Database {
    db.(ledger := db.ledger[KeyOf(actor, command) := StoredCommand(command, None)])
  }

  function Settled(tx: Database, actor: Text, command: Command, version: nat, events: seq<Event>): Database {
    tx.(outbox := tx.outbox + OutboxOf(events, actor, command.commandId),
        sequences := tx.sequences[SequenceOf(actor, command) := command.clientSeq],
        ledger := tx.ledger[KeyOf(actor, command) := StoredCommand(command, Some(Accepted(command, version, events)))])
  }

  predicate SequencesMoved(before: map<SequenceKey, nat>, after: map<SequenceKey, nat>, key: SequenceKey, to: nat) {
    && after == before[key := to]
    && (if key in before then before[key] else 0) < to
  }

  ghost predicate RejectionOf(db: Database, actor: Text, command: Command, result: CommandResult,
                              sequences: map<SequenceKey, nat>, db': Database)
  {
    && KeyOf(actor, command) !in db.ledger
    && ResultFine(command, result) && !result.accepted
    && (sequences == db.sequences || SequencesMoved(db.sequences, sequences, SequenceOf(actor, command),
                                                    command.clientSeq))
    && db' == db.(ledger := db.ledger[KeyOf(actor, command) := StoredCommand(command, Some(result))],
                  sequences := sequences)
  }

  /** The books of an acceptance: the command is new, its sequence is higher than the last, its events and its
      result are added. */
  predicate AcceptanceWritten(db: Database, actor: Text, command: Command, tx: Database, events: seq<Event>,
                              version: nat, db': Database) {
    && KeyOf(actor, command) !in db.ledger && SameBooks(ClaimedBy(db, actor, command), tx)
    && SequencesMoved(db.sequences, db'.sequences, SequenceOf(actor, command), command.clientSeq)
    && db' == Settled(tx, actor, command, version, events)
  }

  ghost predicate AcceptanceOf(db: Database, actor: Text, command: Command, env: Environment, e: Effect, tx: Database,
                               events: seq<Event>, version: nat, db': Database)
  {
    && AcceptanceWritten(db, actor, command, tx, events, version, db')
    && Caused(e, ClaimedBy(db, actor, command), env.commitOf, tx, events)
    && Subject(e) == (command.aggregate, command.aggregateId, version)
    && (command.aggregate == AggregateRoom ==> version == command.expectedVersion + 1)
    && NamedActor(e)
  }

  /** The delivery changed nothing, and it was not a new acceptance. */
  ghost predicate NoEffect(db: Database, actor: Text, command: Command, step: (Database, Result<CommandResult>)) {
    && step.0 == db
    && (step.1.Ok? && step.1.value.accepted ==>
          && KeyOf(actor, command) in db.ledger && SameCommand(db.ledger[KeyOf(actor, command)].command, command)
          && db.ledger[KeyOf(actor, command)].result.Some?
          && step.1.value == db.ledger[KeyOf(actor, command)].result.value.(duplicate := true))
  }

  ghost predicate OutcomeOf(o: Outcome, db: Database, actor: Text, command: Command, env: Environment,
                            step: (Database, Result<CommandResult>))
  {
    match o
    case Unchanged => NoEffect(db, actor, command, step)
    case RejectedNow(result, sequences) => step.1 == Ok(result)
        && RejectionOf(db, actor, command, result, sequences, step.0)
    case AcceptedNow(e, tx, events) =>
      && step.1.Ok? && step.1.value == Accepted(command, step.1.value.aggregateVersion, events)
      && AcceptanceOf(db, actor, command, env, e, tx, events, step.1.value.aggregateVersion, step.0)
  }

  lemma CreationVersion(db: Database, actor: Text, command: Command)
    requires HandleCreateRoom(db, actor, command).Success?
    ensures HandleCreateRoom(db, actor, command).version == 1
  {
  }

  lemma MutationVersion(db: Database, id: Text, a: R.RoomAction)
    requires OrdinaryRoomAction(a) && MutateRoom(db, id, a).Success?
    ensures MutateRoom(db, id, a).version == a.expected + 1
  {
    R.OneEventPerTransition(R.Restore(db.rooms[id]).value, a);
  }

  lemma StartVersion(db: Database, actor: Text, command: Command, handId: Text, mode: H.FairnessMode, env: Environment)
    requires HandleStartRoomHand(db, actor, command, handId, mode, env).Success?
    ensures HandleStartRoomHand(db, actor, command, handId, mode, env).version == command.expectedVersion + 1
  {
    R.StartHandEvent(R.Restore(db.rooms[command.aggregateId]).value, actor, handId, command.expectedVersion);
  }

  /** A room command that succeeds takes the room from the version it expected to the next. */
  lemma RoomReplyVersion(db: Database, actor: Text, command: Command, op: Operation, env: Environment)
    requires ConcernsRoom(op) && (op.CreateRoom? ==> command.expectedVersion == 0)
    requires Handle(db, actor, command, op, env).Success?
    ensures Handle(db, actor, command, op, env).version == command.expectedVersion + 1
  {
    var id, expected := command.aggregateId, command.expectedVersion;
    match op
    case CreateRoom => CreationVersion(db, actor, command);
    case JoinRoom => MutationVersion(db, id, R.JoinAction(actor, expected));
    case LeaveRoom => MutationVersion(db, id, R.LeaveAction(actor, expected));
    case SetRoomReady(ready) => MutationVersion(db, id, R.SetReadyAction(actor, ready, expected));
    case StartRoomHand(handId, mode) => StartVersion(db, actor, command, handId, mode, env);
  }

  /** `e` accounts for what the handler did, if it succeeded. */
  ghost predicate Accounted(e: Effect, db: Database, actor: Text, command: Command, handled: Handled,
                            env: Environment) {
    handled.Success? ==>
      && Explains(e, ClaimedBy(db, actor, command), env.commitOf, handled, command.aggregate, command.aggregateId)
      && (command.aggregate == AggregateRoom ==> handled.version == command.expectedVersion + 1)
      && NamedActor(e)
  }

  lemma AccountFor(db: Database, actor: Text, command: Command, op: Operation, env: Environment) returns (e: Effect)
    requires Loadable(db) && IdentityValid(actor, command, op) && !(op.StartRoomHand? && op.mode == H.UnknownMode)
    requires Handle(ClaimedBy(db, actor, command), actor, command, op, env).Success?
    ensures Accounted(e, db, actor, command, Handle(ClaimedBy(db, actor, command), actor, command, op, env), env)
  {
    LoadableIsKeyed(db);
    BlankIsEmpty();
    e := Explain(ClaimedBy(db, actor, command), actor, command, op, env);
    if ConcernsRoom(op) {
      RoomReplyVersion(ClaimedBy(db, actor, command), actor, command, op, env);
    }
  }

  lemma SettledAcceptance(db: Database, actor: Text, command: Command, handled: Handled, env: Environment, e: Effect)
    requires KeyOf(actor, command) !in db.ledger && handled.Success? && env.eventIds
    requires command.clientSeq > LastSequence(db, SequenceOf(actor, command))
    requires SameBooks(ClaimedBy(db, actor, command), handled.db) && Accounted(e, db, actor, command, handled, env)
    ensures OutcomeOf(AcceptedNow(e, handled.db, handled.events), db, actor, command, env,
                      Settle(db, actor, command, handled, env))
  {
  }

  lemma SettledRejection(db: Database, actor: Text, command: Command, handled: Handled, env: Environment)
    returns (o: Outcome)
    requires KeyOf(actor, command) !in db.ledger && !(handled.Success? && env.eventIds)
    requires command.clientSeq > LastSequence(db, SequenceOf(actor, command))
    requires SameBooks(ClaimedBy(db, actor, command), handled.db)
             && CleanRejection(ClaimedBy(db, actor, command), handled)
    ensures OutcomeOf(o, db, actor, command, env, Settle(db, actor, command, handled, env))
  {
    if handled.Failure? && BusinessCode(handled.error).Some? {
      var result := Rejected(command, BusinessCode(handled.error).value,
                             RejectedVersion(handled.error, handled.currentVersion));
      o := RejectedNow(result, db.sequences[SequenceOf(actor, command) := command.clientSeq]);
    } else {
      o := Unchanged;
    }
  }

  /** Every delivery leaves the store as it is, rejects a new command, or accepts a new one. */
  lemma StepOutcome(db: Database, actor: Text, received: Command, op: Operation, env: Environment) returns (o: Outcome)
    requires Loadable(db) && Completed(db.ledger)
    ensures OutcomeOf(o, db, actor, Bound(received, op, env), env, Step(db, actor, received, op, env))
  {
    var command := Bound(received, op, env);
    if (op.StartRoomHand? && op.mode == H.UnknownMode) || !IdentityValid(actor, command, op) || env.storeFails {
      o := Unchanged;
    } else {
      o := AttemptOutcome(db, actor, command, op, env);
    }
  }

  lemma AttemptOutcome(db: Database, actor: Text, command: Command, op: Operation, env: Environment)
    returns (o: Outcome)
    requires Loadable(db) && Completed(db.ledger)
    requires IdentityValid(actor, command, op) && !(op.StartRoomHand? && op.mode == H.UnknownMode)
    ensures var handled := Handle(Claim(db, KeyOf(actor, command), command).0, actor, command, op, env);
            OutcomeOf(o, db, actor, command, env, Attempt(db, actor, command, env, handled))
  {
    var key := KeyOf(actor, command);
    var handled := Handle(Claim(db, key, command).0, actor, command, op, env);
    if key in db.ledger {
      assert EntryFine(key, db.ledger[key]);
      o := KnownOutcome(db, actor, command, handled, env);
    } else {
      if handled.Success? {
        var e := AccountFor(db, actor, command, op, env);
        o := NewOutcome(db, actor, command, handled, env, e);
      } else {
        o := UnsuccessfulOutcome(db, actor, command, handled, env);
      }
    }
  }

  /** A command that is in the ledger already. */
  lemma KnownOutcome(db: Database, actor: Text, command: Command, handled: Handled, env: Environment)
    returns (o: Outcome)
    requires KeyOf(actor, command) in db.ledger && KeyOf(actor, command) in handled.db.ledger
    requires db.ledger[KeyOf(actor, command)].result.Some?
    ensures OutcomeOf(o, db, actor, command, env, Attempt(db, actor, command, env, handled))
  {
    o := Unchanged;
  }

  /** A command that is turned down before its handler runs. */
  lemma EarlyOutcome(db: Database, actor: Text, command: Command, handled: Handled, env: Environment)
    returns (o: Outcome)
    requires KeyOf(actor, command) !in db.ledger && KeyOf(actor, command) in handled.db.ledger
    requires !Fresh(command, env.now) || command.clientSeq <= LastSequence(db, SequenceOf(actor, command))
    ensures OutcomeOf(o, db, actor, command, env, Attempt(db, actor, command, env, handled))
  {
    o := RejectedNow(Rejected(command, if Fresh(command, env.now) then CodeSequenceConflict else CodeInvalidCommand, 0),
                     db.sequences);
  }

  lemma UnsuccessfulOutcome(db: Database, actor: Text, command: Command, handled: Handled, env: Environment)
    returns (o: Outcome)
    requires KeyOf(actor, command) !in db.ledger
    requires handled.Failure? || !env.eventIds || !Fresh(command, env.now)
             || command.clientSeq <= LastSequence(db, SequenceOf(actor, command))
    requires SameBooks(ClaimedBy(db, actor, command), handled.db)
             && CleanRejection(ClaimedBy(db, actor, command), handled)
    ensures OutcomeOf(o, db, actor, command, env, Attempt(db, actor, command, env, handled))
  {
    if !Fresh(command, env.now) || command.clientSeq <= LastSequence(db, SequenceOf(actor, command)) {
      o := EarlyOutcome(db, actor, command, handled, env);
    } else {
      o := SettledRejection(db, actor, command, handled, env);
    }
  }

  lemma NewOutcome(db: Database, actor: Text, command: Command, handled: Handled, env: Environment, e: Effect)
    returns (o: Outcome)
    requires KeyOf(actor, command) !in db.ledger && handled.Success?
    requires SameBooks(ClaimedBy(db, actor, command), handled.db) && Accounted(e, db, actor, command, handled, env)
    ensures OutcomeOf(o, db, actor, command, env, Attempt(db, actor, command, env, handled))
  {
    if !Fresh(command, env.now) || command.clientSeq <= LastSequence(db, SequenceOf(actor, command)) || !env.eventIds {
      o := UnsuccessfulOutcome(db, actor, command, handled, env);
    } else {
      SettledAcceptance(db, actor, command, handled, env, e);
      o := AcceptedNow(e, handled.db, handled.events);
    }
  }

  // ------------------------------------------------------------------ every delivery keeps the invariant

  lemma SameRows(db: Database, other: Database)
    requires other.rooms == db.rooms && other.hands == db.hands
    ensures Loadable(db) ==> Loadable(other)
    ensures Linked(db) ==> Linked(other)
    ensures forall outbox :: GapFree(outbox, db) ==> GapFree(outbox, other)
  {
    if Linked(db) {
      forall room, hand ensures LinkedAt(other, room, hand) {
        assert LinkedAt(db, room, hand);
      }
    }
    assert forall a, id :: VersionIn(other, a, id) == VersionIn(db, a, id);
  }

  lemma CompletionKeepsLedger(ledger: map<LedgerKey, StoredCommand>, key: LedgerKey, command: Command,
                              result: CommandResult)
    requires Completed(ledger) && ResultFine(command, result) && key.commandId == command.commandId
    ensures Completed(ledger[key := StoredCommand(command, Some(result))])
  {
    assert EntryFine(key, StoredCommand(command, Some(result)));
    EveryAfterWrite(ledger, (k, entry) => EntryFine(k, entry), key, StoredCommand(command, Some(result)));
  }

  lemma RejectionKeepsConsistent(db: Database, actor: Text, command: Command, result: CommandResult,
                                 sequences: map<SequenceKey, nat>, db': Database)
    requires Consistent(db) && RejectionOf(db, actor, command, result, sequences, db')
    ensures Consistent(db')
  {
    SameRows(db, db');
    CompletionKeepsLedger(db.ledger, KeyOf(actor, command), command, result);
    forall key ensures CausedBy(db'.outbox, key) == EventsOf(db'.ledger, key) {
      assert CausedBy(db.outbox, key) == EventsOf(db.ledger, key);
    }
  }

  lemma AcceptanceKeepsRows(db: Database, actor: Text, command: Command, env: Environment, e: Effect, tx: Database,
                            events: seq<Event>, version: nat, db': Database)
    requires Loadable(db) && Linked(db) && GapFree(db.outbox, db) && H.NeverZero(env.commitOf)
    requires AcceptanceOf(db, actor, command, env, e, tx, events, version, db')
    ensures Loadable(db') && Linked(db') && GapFree(db'.outbox, db')
    ensures RoomChanges(RefsOf(events)) <= 1 && version > 0
            && VersionIn(db', command.aggregate, command.aggregateId) == version
    ensures command.aggregate == AggregateRoom ==> RoomChanges(RefsOf(events)) == 1
    ensures tx.ledger == ClaimedBy(db, actor, command).ledger && tx.outbox == db.outbox
  {
    var claimed := ClaimedBy(db, actor, command);
    SameRows(db, claimed);
    EffectsKeepLoadable(e, claimed, env.commitOf, tx, events);
    EffectsKeepLinked(e, claimed, env.commitOf, tx, events);
    EffectsKeepGapFree(e, claimed, env.commitOf, tx, events, actor, command.commandId);
    SubjectIsStored(e, claimed, env.commitOf, tx, events);
    WrittenRows(e, claimed, env.commitOf, tx, events);
    SameRows(tx, db');
  }

  lemma AcceptanceKeepsBooks(db: Database, actor: Text, command: Command, tx: Database, events: seq<Event>,
                             version: nat)
    requires Completed(db.ledger) && Attributed(db.outbox, db.ledger) && KeyOf(actor, command) !in db.ledger
    requires tx.ledger == ClaimedBy(db, actor, command).ledger && tx.outbox == db.outbox
    requires AcceptanceFine(command, Accepted(command, version, events))
    ensures var db' := Settled(tx, actor, command, version, events);
            Completed(db'.ledger) && Attributed(db'.outbox, db'.ledger)
  {
    var db' := Settled(tx, actor, command, version, events);
    var result := Accepted(command, version, events);
    assert db'.ledger == db.ledger[KeyOf(actor, command) := StoredCommand(command, Some(result))];
    CompletionKeepsLedger(db.ledger, KeyOf(actor, command), command, result);
    forall key ensures CausedBy(db'.outbox, key) == EventsOf(db'.ledger, key) {
      assert CausedBy(db.outbox, key) == EventsOf(db.ledger, key);
      AppendCaused(db.outbox, events, actor, command.commandId, key);
    }
  }

  /** The effect's events are not empty. */
  lemma EffectsHaveEvents(e: Effect, db: Database, commitOf: H.CommitFunction, tx: Database, events: seq<Event>)
    requires Caused(e, db, commitOf, tx, events)
    ensures events != []
  {
    match e
    case RoomMade(s') =>
    case RoomChanged(s, a, s') => R.OneEventPerTransition(s, a);
    case HandStarted(s, actor, s', h', _, _) => R.StartHandEvent(s, actor, h'.id, s.version);
    case HandChanged(h, act, h') => HandLemmas.EventsAreNumbered(h, commitOf, act);
    case HandEnded(h, act, h', s, s', archived, _, _) => HandLemmas.EventsAreNumbered(h, commitOf, act);
  }

  /** One delivery, of anything to anyone, keeps the store consistent; a new acceptance replies the version
      now stored, which is the last one in the log. */
  lemma StepKeepsConsistent(db: Database, actor: Text, received: Command, op: Operation, env: Environment)
    requires Consistent(db) && H.NeverZero(env.commitOf)
    ensures Consistent(Step(db, actor, received, op, env).0)
    ensures var (db', r) := Step(db, actor, received, op, env);
            r.Ok? && r.value.accepted && !r.value.duplicate ==>
              && r.value.aggregateVersion == VersionIn(db', r.value.aggregate, r.value.aggregateId) > 0
              && var log := VersionsOf(db'.outbox, r.value.aggregate, r.value.aggregateId);
                 log != [] && log[|log| - 1] == r.value.aggregateVersion
  {
    var command := Bound(received, op, env);
    var (db', r) := Step(db, actor, received, op, env);
    var o := StepOutcome(db, actor, received, op, env);
    match o
    case Unchanged =>
    case RejectedNow(result, sequences) =>
      RejectionKeepsConsistent(db, actor, command, result, sequences, db');
    case AcceptedNow(e, tx, events) =>
      AcceptanceKeepsConsistent(db, actor, command, env, e, tx, events, r.value.aggregateVersion, db');
      assert VersionsOf(db'.outbox, command.aggregate, command.aggregateId) == UpTo(r.value.aggregateVersion);
  }

  lemma AcceptanceKeepsConsistent(db: Database, actor: Text, command: Command, env: Environment, e: Effect,
                                  tx: Database, events: seq<Event>, version: nat, db': Database)
    requires Consistent(db) && H.NeverZero(env.commitOf)
    requires AcceptanceOf(db, actor, command, env, e, tx, events, version, db')
    ensures Consistent(db') && version > 0 && VersionIn(db', command.aggregate, command.aggregateId) == version
  {
    AcceptanceKeepsRows(db, actor, command, env, e, tx, events, version, db');
    EffectsHaveEvents(e, ClaimedBy(db, actor, command), env.commitOf, tx, events);
    AcceptanceKeepsBooks(db, actor, command, tx, events, version);
  }
}
