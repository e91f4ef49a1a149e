/** Whole runs of the service from an empty store, any commands in any order and any number of times. */
module Reachable {
  import opened Bytes
  import opened Text
  import opened Domain
  import opened Store
  import opened Handlers
  import opened Service
  import opened Effects
  import opened Outbox
  import opened StoreInvariant
  import opened Ledger
  import R = RoomModel
  import H = HandModel

  /** One arrival of a command at the service. */
  datatype Delivery = Delivery(actor: Text, command: Command, op: Operation, env: Environment)

  function Reply(db: Database, d: Delivery): Result<CommandResult> {
    Step(db, d.actor, d.command, d.op, d.env).1
  }

  function After(db: Database, d: Delivery): Database {
    Step(db, d.actor, d.command, d.op, d.env).0
  }

  function Run(db: Database, ds: seq<Delivery>): Database {
    if ds == [] then db else After(Run(db, ds[..|ds| - 1]), ds[|ds| - 1])
  }

  function KeyFor(d: Delivery): LedgerKey {
    KeyOf(d.actor, d.command)
  }

  ghost predicate Hashing(ds: seq<Delivery>) {
    forall i :: 0 <= i < |ds| ==> H.NeverZero(ds[i].env.commitOf)
  }

  lemma {:induction false} RunsStayConsistent(db: Database, ds: seq<Delivery>)
    requires Consistent(db) && Hashing(ds)
    ensures Consistent(Run(db, ds))
  {
    if ds != [] {
      var d := ds[|ds| - 1];
      RunsStayConsistent(db, ds[..|ds| - 1]);
      StepKeepsConsistent(Run(db, ds[..|ds| - 1]), d.actor, d.command, d.op, d.env);
    }
  }

  /** In every reachable store rows can be loaded, rooms and hands are tied, the log is gap-free and every
      claimed command is completed and accounts for its events. */
  lemma {:induction false} EveryReachableStoreIsConsistent(ds: seq<Delivery>)
    requires Hashing(ds)
    ensures Consistent(Run(EMPTY_DATABASE, ds))
  {
    EmptyIsConsistent();
    RunsStayConsistent(EMPTY_DATABASE, ds);
  }

  /** The tie between rooms and hands in every reachable store, and at most one live hand per room. */
  lemma {:induction false} RoomsAndHandsAgree(ds: seq<Delivery>, room: Text, h1: Text, h2: Text)
    requires Hashing(ds)
    ensures var db := Run(EMPTY_DATABASE, ds);
            && (ActiveOn(db, room, h1) <==> LiveIn(db, room, h1))
            && (ActiveOn(db, room, h1) ==> SameSeats(db.rooms[room], db.hands[h1]))
            && (LiveIn(db, room, h1) && LiveIn(db, room, h2) ==> h1 == h2)
  {
    var db := Run(EMPTY_DATABASE, ds);
    EveryReachableStoreIsConsistent(ds);
    assert LinkedAt(db, room, h1) && LinkedAt(db, room, h2);
  }

  // ------------------------------------------------------------------ what never changes, what only grows

  ghost predicate LedgerGrows(before: map<LedgerKey, StoredCommand>, after: map<LedgerKey, StoredCommand>) {
    forall key :: key in before ==> key in after && after[key] == before[key]
  }

  function LastOf(sequences: map<SequenceKey, nat>, key: SequenceKey): nat {
    if key in sequences then sequences[key] else 0
  }

  ghost predicate SequencesGrow(before: map<SequenceKey, nat>, after: map<SequenceKey, nat>) {
    forall key :: LastOf(before, key) <= LastOf(after, key)
  }

  /** What any later store has in common with an earlier one. */
  ghost predicate Follows(db: Database, later: Database) {
    && LedgerGrows(db.ledger, later.ledger) && SequencesGrow(db.sequences, later.sequences) && db.outbox <= later.outbox
  }

  /** The rooms, the hands and the log are as they were. */
  predicate SameState(db: Database, later: Database) {
    later.rooms == db.rooms && later.hands == db.hands && later.outbox == db.outbox
  }

  predicate NewlyAccepted(r: Result<CommandResult>) {
    r.Ok? && r.value.accepted && !r.value.duplicate
  }

  lemma AcceptanceFollows(db: Database, actor: Text, command: Command, tx: Database, events: seq<Event>, version: nat,
                          db': Database)
    requires AcceptanceWritten(db, actor, command, tx, events, version, db')
    ensures Follows(db, db')
    ensures LastOf(db'.sequences, SequenceOf(actor, command)) == command.clientSeq > LastOf(db.sequences,
            SequenceOf(actor, command))
  {
  }

  /** What is new after a delivery `step` of `command`. */
  ghost predicate StepEffect(db: Database, actor: Text, command: Command, step: (Database, Result<CommandResult>)) {
    && Follows(db, step.0)
    && (!NewlyAccepted(step.1) ==> SameState(db, step.0))
    && (NewlyAccepted(step.1) ==>
          && KeyOf(actor, command) !in db.ledger
          && LastOf(step.0.sequences, SequenceOf(actor, command)) == command.clientSeq > LastOf(db.sequences,
             SequenceOf(actor, command)))
  }

  lemma OutcomeEffect(o: Outcome, db: Database, actor: Text, command: Command, env: Environment,
                      step: (Database, Result<CommandResult>))
    requires OutcomeOf(o, db, actor, command, env, step)
    ensures StepEffect(db, actor, command, step)
  {
    match o
    case Unchanged =>
    case RejectedNow(result, sequences) =>
    case AcceptedNow(e, tx, events) =>
      AcceptanceFollows(db, actor, command, tx, events, step.1.value.aggregateVersion, step.0);
  }

  /** No delivery changes a completed result or takes back a sequence or an event; one that is not a new
      acceptance changes no room, no hand and no event; a new acceptance raises the actor's sequence. */
  lemma StepFollows(db: Database, d: Delivery)
    requires Consistent(db)
    ensures StepEffect(db, d.actor, Bound(d.command, d.op, d.env), Step(db, d.actor, d.command, d.op, d.env))
  {
    var o := StepOutcome(db, d.actor, d.command, d.op, d.env);
    OutcomeEffect(o, db, d.actor, Bound(d.command, d.op, d.env), d.env, Step(db, d.actor, d.command, d.op, d.env));
  }

  lemma FollowsIsTransitive(a: Database, b: Database, c: Database)
    requires Follows(a, b) && Follows(b, c)
    ensures Follows(a, c)
  {
  }

  lemma {:induction false} RunsFollow(db: Database, ds: seq<Delivery>)
    requires Consistent(db) && Hashing(ds)
    ensures Follows(db, Run(db, ds))
  {
    if ds != [] {
      var before := Run(db, ds[..|ds| - 1]);
      RunsFollow(db, ds[..|ds| - 1]);
      RunsStayConsistent(db, ds[..|ds| - 1]);
      StepFollows(before, ds[|ds| - 1]);
      FollowsIsTransitive(db, before, Run(db, ds));
    }
  }

  // ------------------------------------------------------------------ replays

  /** A command whose identifier the actor has used before changes nothing. If it is the same command the
      reply is the stored result marked as a duplicate, otherwise it is a rejection. */
  lemma ReplayHasNoEffect(db: Database, d: Delivery)
    requires Consistent(db) && KeyFor(d) in db.ledger
    ensures After(db, d) == db
    ensures var command := Bound(d.command, d.op, d.env);
            Reply(db, d).Ok? ==>
              Reply(db, d).value.accepted ==> SameCommand(db.ledger[KeyFor(d)].command, command)
    ensures var command := Bound(d.command, d.op, d.env);
            IdentityValid(d.actor, command, d.op) && !d.env.storeFails
                && !(d.op.StartRoomHand? && d.op.mode == H.UnknownMode)
            && SameCommand(db.ledger[KeyFor(d)].command, command)
            ==> Reply(db, d) == Ok(db.ledger[KeyFor(d)].result.value.(duplicate := true))
  {
    assert EntryFine(KeyFor(d), db.ledger[KeyFor(d)]);
  }

  lemma AcceptedEntry(db: Database, d: Delivery)
    requires Consistent(db) && NewlyAccepted(Reply(db, d))
    ensures KeyFor(d) in After(db, d).ledger
    ensures After(db, d).ledger[KeyFor(d)] == StoredCommand(Bound(d.command, d.op, d.env), Some(Reply(db, d).value))
    ensures IdentityValid(d.actor, Bound(d.command, d.op, d.env), d.op)
            && !(d.op.StartRoomHand? && d.op.mode == H.UnknownMode)
  {
    var o := StepOutcome(db, d.actor, d.command, d.op, d.env);
  }

  /** Whatever happens in between, resending an accepted request later replies the very result of the first
      time, marked as a duplicate, and changes nothing. */
  lemma {:induction false} ResendingIsSafe(db: Database, d: Delivery, between: seq<Delivery>, again: Delivery)
    requires Consistent(db) && H.NeverZero(d.env.commitOf) && Hashing(between) && NewlyAccepted(Reply(db, d))
    requires again == d.(env := again.env) && again.env.payloadDigest == d.env.payloadDigest && !again.env.storeFails
    ensures var later := Run(After(db, d), between);
            After(later, again) == later && Reply(later, again) == Ok(Reply(db, d).value.(duplicate := true))
  {
    var later := Run(After(db, d), between);
    AcceptedEntry(db, d);
    StepKeepsConsistent(db, d.actor, d.command, d.op, d.env);
    RunsFollow(After(db, d), between);
    RunsStayConsistent(After(db, d), between);
    ReplayHasNoEffect(later, again);
  }

  // ------------------------------------------------------------------ one mutation, one sequence, one command

  /** The log holds at most one room change for a command, none unless it was accepted, and exactly one for
      an accepted room command. */
  lemma {:induction false} OneMutationPerCommand(db: Database, key: LedgerKey)
    requires Consistent(db)
    ensures RoomChanges(CausedBy(db.outbox, key)) <= 1
    ensures CausedBy(db.outbox, key) != [] <==>
            key in db.ledger && db.ledger[key].result.Some? && db.ledger[key].result.value.accepted
    ensures key in db.ledger && db.ledger[key].result.Some? && db.ledger[key].result.value.accepted
            && db.ledger[key].command.aggregate == AggregateRoom
            ==> RoomChanges(CausedBy(db.outbox, key)) == 1
  {
    assert CausedBy(db.outbox, key) == EventsOf(db.ledger, key);
    if key in db.ledger {
      assert EntryFine(key, db.ledger[key]);
    }
  }

  predicate AcceptedIn(ledger: map<LedgerKey, StoredCommand>, key: LedgerKey) {
    key in ledger && ledger[key].result.Some? && ledger[key].result.value.accepted
  }

  ghost predicate SequencesSpent(ledger: map<LedgerKey, StoredCommand>, sequences: map<SequenceKey, nat>) {
    && (forall k :: AcceptedIn(ledger, k) ==>
          ledger[k].command.clientSeq <= LastOf(sequences, SequenceOf(k.actor, ledger[k].command)))
    && (forall k, j :: AcceptedIn(ledger, k) && AcceptedIn(ledger, j) && k != j
          && SequenceOf(k.actor, ledger[k].command) == SequenceOf(j.actor, ledger[j].command)
          ==> ledger[k].command.clientSeq != ledger[j].command.clientSeq)
  }

  /** No acceptance is new and no sequence goes back. */
  ghost predicate NoneAccepted(db: Database, later: Database) {
    && (forall k :: AcceptedIn(later.ledger, k) ==> AcceptedIn(db.ledger, k) && later.ledger[k] == db.ledger[k])
    && SequencesGrow(db.sequences, later.sequences)
  }

  ghost predicate OneAccepted(db: Database, later: Database, key: LedgerKey, command: Command, result: CommandResult) {
    && later.ledger == db.ledger[key := StoredCommand(command, Some(result))]
    && later.sequences == db.sequences[SequenceOf(key.actor, command) := command.clientSeq]
    && command.clientSeq > LastOf(db.sequences, SequenceOf(key.actor, command))
  }

  lemma AcceptanceBooks(db: Database, actor: Text, command: Command, tx: Database, events: seq<Event>, version: nat,
                        db': Database)
    requires AcceptanceWritten(db, actor, command, tx, events, version, db')
    ensures OneAccepted(db, db', KeyOf(actor, command), command, Accepted(command, version, events))
  {
  }

  lemma OutcomeBooks(o: Outcome, db: Database, actor: Text, command: Command, env: Environment,
                     step: (Database, Result<CommandResult>))
    requires OutcomeOf(o, db, actor, command, env, step)
    ensures NoneAccepted(db, step.0)
            || (step.1.Ok? && OneAccepted(db, step.0, KeyOf(actor, command), command, step.1.value))
  {
    match o
    case Unchanged =>
    case RejectedNow(result, sequences) =>
    case AcceptedNow(e, tx, events) =>
      AcceptanceBooks(db, actor, command, tx, events, step.1.value.aggregateVersion, step.0);
  }

  lemma StepBooks(db: Database, d: Delivery)
    requires Consistent(db)
    ensures NoneAccepted(db, After(db, d))
            || (Reply(db, d).Ok? && OneAccepted(db, After(db, d), KeyFor(d), Bound(d.command, d.op, d.env),
                                                Reply(db, d).value))
  {
    var o := StepOutcome(db, d.actor, d.command, d.op, d.env);
    OutcomeBooks(o, db, d.actor, Bound(d.command, d.op, d.env), d.env, Step(db, d.actor, d.command, d.op, d.env));
  }

  lemma NoneSpends(db: Database, later: Database)
    requires SequencesSpent(db.ledger, db.sequences) && NoneAccepted(db, later)
    ensures SequencesSpent(later.ledger, later.sequences)
  {
  }

  lemma StepSpendsSequences(db: Database, d: Delivery)
    requires Consistent(db) && SequencesSpent(db.ledger, db.sequences)
    ensures SequencesSpent(After(db, d).ledger, After(db, d).sequences)
  {
    StepBooks(db, d);
    if NoneAccepted(db, After(db, d)) {
      NoneSpends(db, After(db, d));
    } else {
      SpendingOne(db.ledger, db.sequences, KeyFor(d), Bound(d.command, d.op, d.env), Reply(db, d).value);
    }
  }

  lemma SpendingOne(ledger: map<LedgerKey, StoredCommand>, sequences: map<SequenceKey, nat>, key: LedgerKey,
                    command: Command, result: CommandResult)
    requires SequencesSpent(ledger, sequences) && command.clientSeq > LastOf(sequences, SequenceOf(key.actor, command))
    ensures SequencesSpent(ledger[key := StoredCommand(command, Some(result))],
                           sequences[SequenceOf(key.actor, command) := command.clientSeq])
  {
    var ledger' := ledger[key := StoredCommand(command, Some(result))];
    assert forall k :: AcceptedIn(ledger', k) && k != key ==> AcceptedIn(ledger, k) && ledger'[k] == ledger[k];
  }

  /** In every reachable store no two accepted commands of one actor on one aggregate share a sequence. */
  lemma {:induction false} NoSequenceIsReused(ds: seq<Delivery>)
    requires Hashing(ds)
    ensures var db := Run(EMPTY_DATABASE, ds); SequencesSpent(db.ledger, db.sequences)
  {
    if ds != [] {
      var fewer := ds[..|ds| - 1];
      NoSequenceIsReused(fewer);
      EveryReachableStoreIsConsistent(fewer);
      StepSpendsSequences(Run(EMPTY_DATABASE, fewer), ds[|ds| - 1]);
    }
  }

  // ------------------------------------------------------------------ what an accepted command did

  lemma AttemptSucceeded(db: Database, actor: Text, command: Command, env: Environment, handled: Handled)
    requires KeyOf(actor, command) in handled.db.ledger && NewlyAccepted(Attempt(db, actor, command, env, handled).1)
    ensures handled.Success? && Fresh(command, env.now)
    ensures var db' := Attempt(db, actor, command, env, handled).0;
            db'.rooms == handled.db.rooms && db'.hands == handled.db.hands
  {
  }

  /** A command is accepted only if it did what it asks for: the transition named by the command, taken by its
      actor from the version it expected, on the rooms and hands as they were; and a contribution only before
      the publication of its hand's round. */
  lemma AcceptedDidWhatItAsks(db: Database, d: Delivery) returns (e: Effect)
    requires Consistent(db) && NewlyAccepted(Reply(db, d))
    ensures Intended(e, d.actor, Bound(d.command, d.op, d.env), d.op, d.env)
    ensures Subject(e).0 == AggregateOf(d.op) && Subject(e).1 == d.command.aggregateId
    ensures exists tx: Database, events ::
              Caused(e, ClaimedBy(db, d.actor, Bound(d.command, d.op, d.env)), d.env.commitOf, tx, events)
              && After(db, d).rooms == tx.rooms && After(db, d).hands == tx.hands
  {
    var command := Bound(d.command, d.op, d.env);
    AcceptedEntry(db, d);
    StepFollows(db, d);
    LoadableIsKeyed(db);
    var claimed := ClaimedBy(db, d.actor, command);
    var handled := Handle(claimed, d.actor, command, d.op, d.env);
    AttemptSucceeded(db, d.actor, command, d.env, handled);
    e := Explain(claimed, d.actor, command, d.op, d.env);
    assert Caused(e, claimed, d.env.commitOf, handled.db, handled.events);
  }

  // ------------------------------------------------------------------ ending a hand

  lemma EndingIsTerminal(h: H.HandState, commitOf: H.CommitFunction, act: H.HandAction)
    requires EndingAction(act) && H.Apply(h, commitOf, act).Done?
    ensures var h' := H.Apply(h, commitOf, act).state;
            !H.Terminal(h.phase) && H.Terminal(h'.phase) && h'.id == h.id && h'.roomId == h.roomId
  {
    match act
    case CompleteAction(_) =>
    case CancelAction(_, _) =>
    case AbortAction(_, _) =>
    case ExpireAction(_, _) =>
  }

  /** A guarded expiry does not pass: a live action above its version has committed, or there is no writer row. */
  predicate Overtaken(db: Database, hand: Text, op: Operation, env: Environment) {
    Guarded(op, env) && (HasWriter(db, hand) ==> db.live[hand].committed > op.expectedLiveVersion)
  }

  /** The outcome of ending a hand whose room can be released. */
  ghost predicate Releases(db: Database, room: Text, hand: Text, op: Operation, env: Environment, r: Handled) {
    && (r.Failure? <==> Overtaken(db, hand, op, env))
    && (r.Failure? ==> r.error == if HasWriter(db, hand) then LiveProgressed else Infrastructure)
    && (r.Success? ==> !ActiveOn(r.db, room, hand) && !LiveIn(r.db, room, hand))
  }

  lemma WritingReleases(db: Database, guarded: Database, stored: H.HandSnapshot, room: R.RoomSnapshot, h': H.HandState,
                        s': R.RoomState, events: seq<Event>)
    requires guarded == db.(live := guarded.live) && room.id in db.rooms && db.rooms[room.id] == room
    requires stored.body.id in db.hands && db.hands[stored.body.id] == stored
    requires h'.id == stored.body.id && H.Terminal(h'.phase) && s'.id == room.id && s'.status != R.HandActive
    ensures var r := WriteEnding(guarded, stored, room, h', s', events);
            r.Success? && !ActiveOn(r.db, room.id, stored.body.id) && !LiveIn(r.db, room.id, stored.body.id)
  {
  }

  lemma FinishedReleases(db: Database, stored: H.HandSnapshot, room: R.RoomSnapshot, s: R.RoomState, s': R.RoomState,
                         roomEvents: seq<Event>, h': H.HandState, handEvents: seq<Event>, op: Operation,
                         env: Environment)
    requires stored.body.id in db.hands && db.hands[stored.body.id] == stored
    requires room.id == stored.body.roomId && room.id in db.rooms && db.rooms[room.id] == room
             && R.Restore(room) == Ok(s)
    requires R.FinishHand(s, stored.body.id, room.version, ArchiveAvailable(stored.body.phase, h'.phase))
             == Done(s', roomEvents)
    requires h'.id == stored.body.id && H.Terminal(h'.phase) && s'.id == room.id && s'.status != R.HandActive
    ensures Releases(db, room.id, stored.body.id, op, env, ReleaseRoom(db, stored, h', handEvents, op, env))
  {
    var guard := GuardExpiry(db, stored.body.id, op, env);
    if guard.Ok? {
      WritingReleases(db, guard.value, stored, room, h', s', handEvents + roomEvents);
    }
  }

  lemma ReleasingReleases(db: Database, stored: H.HandSnapshot, h': H.HandState, handEvents: seq<Event>, op: Operation,
                          env: Environment)
    requires Loadable(db) && Linked(db) && stored.body.id in db.hands && db.hands[stored.body.id] == stored
    requires !H.Terminal(stored.body.phase) && h'.id == stored.body.id && H.Terminal(h'.phase)
    ensures Releases(db, stored.body.roomId, stored.body.id, op, env, ReleaseRoom(db, stored, h', handEvents, op, env))
  {
    var hand, archived := stored.body.id, ArchiveAvailable(stored.body.phase, h'.phase);
    ReleaseNeverFails(db, hand, archived);
    var room := db.rooms[stored.body.roomId];
    var s := R.Restore(room).value;
    R.FinishHandEvent(s, hand, room.version, archived);
    var t := R.FinishHand(s, hand, room.version, archived);
    FinishedReleases(db, stored, room, s, t.state, t.events, h', handEvents, op, env);
  }

  lemma TerminationIsRelease(db: Database, command: Command, op: Operation, act: H.HandAction, env: Environment,
                             stored: H.HandSnapshot,
                             h: H.HandState, h': H.HandState, events: seq<Event>)
    requires command.aggregateId in db.hands && db.hands[command.aggregateId] == stored && H.Restore(stored) == Ok(h)
    requires H.Apply(h, env.commitOf, act) == Done(h', events) && H.Terminal(h'.phase)
    ensures HandleTerminate(db, command, op, act, env) == ReleaseRoom(db, stored, h', events, op, env)
  {
  }

  /** In a consistent store a hand that may end does end, with its room released in the same transaction,
      exactly unless it is a guarded expiry overtaken by a live action or without a writer row. */
  lemma EndingAlwaysReleases(db: Database, command: Command, op: Operation, env: Environment)
    requires Loadable(db) && Linked(db) && EndingOperation(op) && command.aggregateId in db.hands
    requires var h := H.Restore(db.hands[command.aggregateId]);
             h.Ok? ==> H.Apply(h.value, env.commitOf, EndingActionOf(op, command.expectedVersion)).Done?
    ensures Releases(db, db.hands[command.aggregateId].body.roomId, command.aggregateId, op, env,
                     HandleTerminate(db, command, op, EndingActionOf(op, command.expectedVersion), env))
  {
    var stored, act := db.hands[command.aggregateId], EndingActionOf(op, command.expectedVersion);
    assert HandRowFine(command.aggregateId, stored);
    var h := H.Restore(stored).value;
    HandLoaded(stored);
    EndingIsTerminal(h, env.commitOf, act);
    var t := H.Apply(h, env.commitOf, act);
    TerminationIsRelease(db, command, op, act, env, stored, h, t.state, t.events);
    ReleasingReleases(db, stored, t.state, t.events, op, env);
  }
}
