/** What a command that succeeds has done to rooms and hands, and that one that is rejected has done nothing. */
module Effects {
  import opened Bytes
  import opened Text
  import opened Domain
  import opened Store
  import opened Handlers
  import opened Quicknet
  import opened HandLemmas
  import R = RoomModel
  import H = HandModel

  /** The five ways in which a command changes the store. Primed states are the ones written. */
  datatype Effect =
    | RoomMade(s': R.RoomState)
    | RoomChanged(s: R.RoomState, a: R.RoomAction, s': R.RoomState)
    | HandStarted(s: R.RoomState, actor: Text, s': R.RoomState, h': H.HandState, roomEvents: seq<Event>,
                  handEvents: seq<Event>)
    | HandChanged(h: H.HandState, act: H.HandAction, h': H.HandState)
    | HandEnded(h: H.HandState, act: H.HandAction, h': H.HandState, s: R.RoomState, s': R.RoomState, archived: bool,
                handEvents: seq<Event>, roomEvents: seq<Event>)

  predicate OrdinaryRoomAction(a: R.RoomAction) {
    a.JoinAction? || a.LeaveAction? || a.SetReadyAction?
  }

  predicate EndingAction(a: H.HandAction) {
    a.CompleteAction? || a.CancelAction? || a.AbortAction? || a.ExpireAction?
  }

  /** `tx` is `db` after the effect, and the effect produced these events. */
  ghost predicate Caused(e: Effect, db: Database, commitOf: H.CommitFunction, tx: Database, events: seq<Event>) {
    match e
    case RoomMade(s') =>
      && R.NewRoom(s'.id, s'.owner) == Done(s', events)
      && s'.id !in db.rooms
      && tx == db.(rooms := db.rooms[s'.id := R.Snapshot(s')])
    case RoomChanged(s, a, s') =>
      && s.id in db.rooms && R.Restore(db.rooms[s.id]) == Ok(s)
      && OrdinaryRoomAction(a) && R.Apply(s, a) == Done(s', events)
      && tx == db.(rooms := db.rooms[s.id := R.Snapshot(s')])
    case HandStarted(s, actor, s', h', roomEvents, handEvents) =>
      && s.id in db.rooms && R.Restore(db.rooms[s.id]) == Ok(s)
      && R.StartHand(s, actor, h'.id, s.version) == Done(s', roomEvents)
      && H.NewHand(h'.mode, h'.id, s.id, HandSeats(s'), h'.serverCommitment, h'.revealKeyId, h'.plan,
                   h'.revealPublicKey, h'.revealKeyBoundAt) == Done(h', handEvents)
      && h'.mode != H.UnknownMode && h'.id !in db.hands
      && tx == db.(rooms := db.rooms[s.id := R.Snapshot(s')], hands := db.hands[h'.id := H.Snapshot(h')])
      && events == roomEvents + handEvents
    case HandChanged(h, act, h') =>
      && h.id in db.hands && H.Restore(db.hands[h.id]) == Ok(h)
      && !EndingAction(act) && H.Apply(h, commitOf, act) == Done(h', events)
      && tx == db.(hands := db.hands[h.id := H.Snapshot(h')], records := tx.records)
    case HandEnded(h, act, h', s, s', archived, handEvents, roomEvents) =>
      && h.id in db.hands && H.Restore(db.hands[h.id]) == Ok(h)
      && EndingAction(act) && H.Apply(h, commitOf, act) == Done(h', handEvents) && H.Terminal(h'.phase)
      && h.roomId in db.rooms && R.Restore(db.rooms[h.roomId]) == Ok(s) && s.id == h.roomId
      && R.FinishHand(s, h.id, s.version, archived) == Done(s', roomEvents)
      && tx == db.(rooms := db.rooms[s.id := R.Snapshot(s')], hands := db.hands[h.id := H.Snapshot(h')],
                   live := tx.live)
      && events == handEvents + roomEvents
  }

  /** Rows are stored under their own identifiers. */
  predicate Keyed(db: Database) {
    && (forall k :: k in db.rooms ==> db.rooms[k].id == k)
    && (forall k :: k in db.hands ==> db.hands[k].body.id == k)
  }

  lemma ExplainCreate(db: Database, actor: Text, command: Command, commitOf: H.CommitFunction) returns (e: Effect)
    requires HandleCreateRoom(db, actor, command).Success?
    ensures Explains(e, db, commitOf, HandleCreateRoom(db, actor, command), AggregateRoom, command.aggregateId)
    ensures e.RoomMade? && e.s'.id == command.aggregateId && e.s'.owner == actor
  {
    e := RoomMade(R.NewRoom(command.aggregateId, actor).state);
  }

  lemma ExplainRoom(db: Database, id: Text, a: R.RoomAction, commitOf: H.CommitFunction) returns (e: Effect)
    requires Keyed(db) && OrdinaryRoomAction(a) && MutateRoom(db, id, a).Success?
    ensures Explains(e, db, commitOf, MutateRoom(db, id, a), AggregateRoom, id)
    ensures e.RoomChanged? && e.a == a
  {
    var s := R.Restore(db.rooms[id]).value;
    R.OneEventPerTransition(s, a);
    e := RoomChanged(s, a, R.Apply(s, a).state);
  }

  /** The hand has the setup that was prepared for it. */
  predicate SetUpAs(h: H.HandState, setup: HandSetup) {
    && h.id == setup.handId && h.serverCommitment == setup.serverCommitment && h.plan == setup.plan
    && h.revealKeyId == setup.revealKeyId && h.revealPublicKey == setup.revealPublicKey
    && h.revealKeyBoundAt == setup.revealKeyBoundAt
  }

  lemma ExplainStart(db: Database, actor: Text, command: Command, handId: Text, mode: H.FairnessMode, env: Environment)
    returns (e: Effect)
    requires Keyed(db) && mode != H.UnknownMode && HandleStartRoomHand(db, actor, command, handId, mode, env).Success?
    ensures Explains(e, db, env.commitOf, HandleStartRoomHand(db, actor, command, handId, mode, env), AggregateRoom,
                     command.aggregateId)
    ensures e.HandStarted? && e.actor == actor && e.h'.id == handId && e.h'.mode == mode
            && e.s.version == command.expectedVersion
    ensures env.setup.Ok? && SetUpAs(e.h', env.setup.value)
  {
    var stored := db.rooms[command.aggregateId];
    var t := R.StartHand(R.Restore(stored).value, actor, handId, command.expectedVersion);
    e := ExplainConstruction(db, stored, actor, t.state, t.events, handId, mode, env.setup.value, env.commitOf);
  }

  lemma ExplainConstruction(db: Database, stored: R.RoomSnapshot, actor: Text, s': R.RoomState, roomEvents: seq<Event>,
                            handId: Text, mode: H.FairnessMode, setup: HandSetup, commitOf: H.CommitFunction)
                              returns (e: Effect)
    requires stored.id in db.rooms && db.rooms[stored.id] == stored && R.Restore(stored).Ok? && mode != H.UnknownMode
    requires R.StartHand(R.Restore(stored).value, actor, handId, stored.version) == Done(s', roomEvents)
    requires ConstructHand(db, stored, s', roomEvents, handId, mode, setup).Success?
    ensures Explains(e, db, commitOf, ConstructHand(db, stored, s', roomEvents, handId, mode, setup), AggregateRoom,
                     stored.id)
    ensures e.HandStarted? && e.actor == actor && e.h'.id == handId && e.h'.mode == mode
            && e.s == R.Restore(stored).value
    ensures SetUpAs(e.h', setup)
  {
    var s := R.Restore(stored).value;
    R.StartHandEvent(s, actor, handId, stored.version);
    var u := H.NewHand(mode, setup.handId, s.id, HandSeats(s'), setup.serverCommitment, setup.revealKeyId,
                       setup.plan, setup.revealPublicKey, setup.revealKeyBoundAt);
    e := Effect.HandStarted(s, actor, s', u.state, roomEvents, u.events);
  }

  /** A hand that was loaded, changed and stored, possibly after a record was inserted. */
  lemma ExplainStored(db: Database, tx: Database, stored: H.HandSnapshot, commitOf: H.CommitFunction, a: H.HandAction)
    returns (e: Effect)
    requires Keyed(db) && tx == db.(records := tx.records) && stored.body.id in db.hands
             && db.hands[stored.body.id] == stored
    requires H.Restore(stored).Ok? && !EndingAction(a)
    requires StoreHand(tx, stored, H.Apply(H.Restore(stored).value, commitOf, a)).Success?
    ensures Explains(e, db, commitOf, StoreHand(tx, stored, H.Apply(H.Restore(stored).value, commitOf, a)),
                     AggregateHand, stored.body.id)
    ensures e.HandChanged? && e.act == a && e.h == H.Restore(stored).value
  {
    var h := H.Restore(stored).value;
    EventsAreNumbered(h, commitOf, a);
    e := HandChanged(h, a, H.Apply(h, commitOf, a).state);
  }

  lemma ExplainContribution(db: Database, stored: H.HandSnapshot, commitOf: H.CommitFunction, a: H.HandAction,
                            recordId: Text, recordSealed: bool) returns (e: Effect)
    requires Keyed(db) && stored.body.id in db.hands && db.hands[stored.body.id] == stored
    requires H.Restore(stored).Ok? && !EndingAction(a)
    requires StoreContribution(db, stored, H.Apply(H.Restore(stored).value, commitOf, a), recordId,
                               recordSealed).Success?
    ensures Explains(e, db, commitOf,
                     StoreContribution(db, stored, H.Apply(H.Restore(stored).value, commitOf, a), recordId,
                                       recordSealed), AggregateHand, stored.body.id)
    ensures e.HandChanged? && e.act == a && e.h == H.Restore(stored).value
  {
    e := ExplainStored(db, InsertRecord(db, recordId).value, stored, commitOf, a);
  }

  predicate HandOperation(op: Operation) {
    op.SubmitHandCommit? || op.SubmitHandReveal? || op.SubmitHandContribution? || op.LockHandBeacon?
    || op.MarkHandDealt? || op.StartHandPlaying? || op.StartHandSettlement?
  }

  predicate EndingOperation(op: Operation) {
    op.CompleteHand? || op.CancelHand? || op.AbortHand? || op.ExpireHand?
  }

  /** `e` accounts for the handler's success `r` on the aggregate `id`. */
  ghost predicate Explains(e: Effect, db: Database, commitOf: H.CommitFunction, r: Handled, aggregate: AggregateType,
                           id: Text) {
    r.Success? && Caused(e, db, commitOf, r.db, r.events) && Subject(e) == (aggregate, id, r.version)
  }

  lemma ExplainMutation(db: Database, id: Text, commitOf: H.CommitFunction, a: H.HandAction) returns (e: Effect)
    requires Keyed(db) && !EndingAction(a) && MutateHand(db, id, commitOf, a).Success?
    ensures Explains(e, db, commitOf, MutateHand(db, id, commitOf, a), AggregateHand, id)
    ensures e.HandChanged? && e.act == a
  {
    e := ExplainStored(db, db, db.hands[id], commitOf, a);
  }

  lemma ExplainCommit(db: Database, actor: Text, command: Command, commitment: Block, env: Environment)
    returns (e: Effect)
    requires Keyed(db) && HandleCommit(db, actor, command, commitment, env).Success?
    ensures Explains(e, db, env.commitOf, HandleCommit(db, actor, command, commitment, env), AggregateHand,
                     command.aggregateId)
    ensures e.HandChanged? && e.act == H.CommitAction(actor, commitment, command.expectedVersion)
            && CheckDeadline(e.h.plan, env.later).None?
  {
    e := ExplainStored(db, db, db.hands[command.aggregateId], env.commitOf,
                       H.CommitAction(actor, commitment, command.expectedVersion));
  }

  lemma ExplainReveal(db: Database, actor: Text, command: Command, env: Environment) returns (e: Effect)
    requires Keyed(db) && HandleReveal(db, actor, command, env).Success?
    ensures Explains(e, db, env.commitOf, HandleReveal(db, actor, command, env), AggregateHand, command.aggregateId)
    ensures e.HandChanged? && CheckDeadline(e.h.plan, env.now).None? && env.digest.Some? && env.recordId.Ok?
    ensures e.act == H.RevealAction(actor, env.digest.value, env.recordId.value, command.expectedVersion)
  {
    e := ExplainContribution(db, db.hands[command.aggregateId], env.commitOf,
                             H.RevealAction(actor, env.digest.value, env.recordId.value, command.expectedVersion),
                             env.recordId.value, env.recordSealed);
  }

  lemma ExplainCustodied(db: Database, actor: Text, command: Command, env: Environment) returns (e: Effect)
    requires Keyed(db) && HandleContribution(db, actor, command, env).Success?
    ensures Explains(e, db, env.commitOf, HandleContribution(db, actor, command, env), AggregateHand,
                     command.aggregateId)
    ensures e.HandChanged? && CheckDeadline(e.h.plan, env.now).None? && env.digest.Some? && env.recordId.Ok?
    ensures e.act == H.CustodiedAction(actor, env.digest.value, env.recordId.value, command.expectedVersion)
  {
    e := ExplainContribution(db, db.hands[command.aggregateId], env.commitOf,
                             H.CustodiedAction(actor, env.digest.value, env.recordId.value, command.expectedVersion),
                             env.recordId.value, env.recordSealed);
  }

  lemma LockStores(db: Database, command: Command, env: Environment)
    requires HandleLock(db, command, env).Success?
    ensures env.beacon.Ok? && command.aggregateId in db.hands && H.Restore(db.hands[command.aggregateId]).Ok?
    ensures var stored := db.hands[command.aggregateId];
            HandleLock(db, command, env)
            == StoreHand(db, stored, H.Apply(H.Restore(stored).value, env.commitOf,
                                             H.LockAction(env.beacon.value, command.expectedVersion)))
  {
  }

  lemma ExplainLock(db: Database, command: Command, env: Environment) returns (e: Effect)
    requires Keyed(db) && HandleLock(db, command, env).Success?
    ensures Explains(e, db, env.commitOf, HandleLock(db, command, env), AggregateHand, command.aggregateId)
    ensures e.HandChanged? && env.beacon.Ok? && e.act == H.LockAction(env.beacon.value, command.expectedVersion)
  {
    LockStores(db, command, env);
    e := ExplainStored(db, db, db.hands[command.aggregateId], env.commitOf,
                       H.LockAction(env.beacon.value, command.expectedVersion));
  }

  lemma DealStores(db: Database, command: Command, env: Environment)
    requires HandleDealt(db, command, env).Success?
    ensures env.liveStart.None? && command.aggregateId in db.hands && H.Restore(db.hands[command.aggregateId]).Ok?
    ensures var stored := db.hands[command.aggregateId];
            HandleDealt(db, command, env)
            == StoreHand(db, stored, H.Advance(H.Restore(stored).value, H.Dealing, H.Bidding, command.expectedVersion))
  {
  }

  lemma DealIsAdvance(h: H.HandState, commitOf: H.CommitFunction, expected: nat)
    ensures H.Apply(h, commitOf, H.DealtAction(expected)) == H.Advance(h, H.Dealing, H.Bidding, expected)
  {
  }

  lemma ExplainDealt(db: Database, command: Command, env: Environment) returns (e: Effect)
    requires Keyed(db) && HandleDealt(db, command, env).Success?
    ensures Explains(e, db, env.commitOf, HandleDealt(db, command, env), AggregateHand, command.aggregateId)
    ensures e.HandChanged? && env.liveStart.None? && e.act == H.DealtAction(command.expectedVersion)
  {
    DealStores(db, command, env);
    DealIsAdvance(H.Restore(db.hands[command.aggregateId]).value, env.commitOf, command.expectedVersion);
    e := ExplainStored(db, db, db.hands[command.aggregateId], env.commitOf, H.DealtAction(command.expectedVersion));
  }

  /** The two rows that ending a hand writes. */
  lemma ExplainWriting(db: Database, guarded: Database, stored: H.HandSnapshot, room: R.RoomSnapshot, e: Effect,
                       commitOf: H.CommitFunction)
    requires e.HandEnded? && guarded == db.(live := guarded.live)
    requires stored.body.id in db.hands && db.hands[stored.body.id] == stored && H.Restore(stored) == Ok(e.h)
    requires room.id == e.h.roomId && room.id in db.rooms && db.rooms[room.id] == room && R.Restore(room) == Ok(e.s)
    requires EndingAction(e.act) && H.Apply(e.h, commitOf, e.act) == Done(e.h', e.handEvents) && H.Terminal(e.h'.phase)
    requires e.h'.id == e.h.id && R.FinishHand(e.s, e.h.id, e.s.version, e.archived) == Done(e.s', e.roomEvents)
             && e.s'.id == e.s.id
    requires WriteEnding(guarded, stored, room, e.h', e.s', e.handEvents + e.roomEvents).Success?
    ensures Explains(e, db, commitOf, WriteEnding(guarded, stored, room, e.h', e.s', e.handEvents + e.roomEvents),
                     AggregateHand, stored.body.id)
  {
    var tx := WriteEnding(guarded, stored, room, e.h', e.s', e.handEvents + e.roomEvents).db;
    assert tx == guarded.(hands := guarded.hands[e.h.id := H.Snapshot(e.h')],
                          rooms := guarded.rooms[e.s.id := R.Snapshot(e.s')]);
  }

  lemma ExplainRelease(db: Database, stored: H.HandSnapshot, act: H.HandAction, h': H.HandState, handEvents: seq<Event>,
                       op: Operation, env: Environment) returns (e: Effect)
    requires Keyed(db) && EndingAction(act) && H.Terminal(h'.phase)
    requires stored.body.id in db.hands && db.hands[stored.body.id] == stored && H.Restore(stored).Ok?
    requires H.Apply(H.Restore(stored).value, env.commitOf, act) == Done(h', handEvents) && h'.id == stored.body.id
    requires ReleaseRoom(db, stored, h', handEvents, op, env).Success?
    ensures Explains(e, db, env.commitOf, ReleaseRoom(db, stored, h', handEvents, op, env), AggregateHand,
                     stored.body.id)
    ensures e.HandEnded? && e.act == act && e.h == H.Restore(stored).value
            && e.archived == ArchiveAvailable(e.h.phase, h'.phase)
  {
    var h, room := H.Restore(stored).value, db.rooms[stored.body.roomId];
    var s, archived := R.Restore(room).value, ArchiveAvailable(h.phase, h'.phase);
    var u := R.FinishHand(s, h.id, s.version, archived);
    R.FinishHandEvent(s, h.id, s.version, archived);
    e := HandEnded(h, act, h', s, u.state, archived, handEvents, u.events);
    ExplainWriting(db, GuardExpiry(db, h.id, op, env).value, stored, room, e, env.commitOf);
  }

  /** The hand has been dealt and is not over: there is a live game of it. */
  predicate InLivePlay(p: H.Phase) {
    p in {H.Bidding, H.Playing, H.Settling}
  }

  lemma ArchiveIsOfLivePlay(h: H.HandState, commitOf: H.CommitFunction, act: H.HandAction)
    requires EndingAction(act) && H.Apply(h, commitOf, act).Done?
    ensures ArchiveAvailable(h.phase, H.Apply(h, commitOf, act).state.phase) == InLivePlay(h.phase)
  {
  }

  lemma ExplainEnding(db: Database, command: Command, op: Operation, act: H.HandAction, env: Environment)
    returns (e: Effect)
    requires Keyed(db) && EndingAction(act) && HandleTerminate(db, command, op, act, env).Success?
    ensures Explains(e, db, env.commitOf, HandleTerminate(db, command, op, act, env), AggregateHand,
                     command.aggregateId)
    ensures e.HandEnded? && e.act == act && e.archived == InLivePlay(e.h.phase)
  {
    var stored := db.hands[command.aggregateId];
    ArchiveIsOfLivePlay(H.Restore(stored).value, env.commitOf, act);
    var t := H.Apply(H.Restore(stored).value, env.commitOf, act);
    EventsAreNumbered(H.Restore(stored).value, env.commitOf, act);
    e := ExplainRelease(db, stored, act, t.state, t.events, op, env);
  }

  function EndingActionOf(op: Operation, expected: nat): (a: H.HandAction)
    requires EndingOperation(op)
    ensures EndingAction(a)
  {
    match op
    case CompleteHand => H.CompleteAction(expected)
    case CancelHand(reason) => H.CancelAction(reason, expected)
    case AbortHand(reason) => H.AbortAction(reason, expected)
    case ExpireHand(reason, _) => H.ExpireAction(reason, expected)
  }

  /** The aggregate whose version the reply carries. */
  function Subject(e: Effect): (AggregateType, Text, nat) {
    match e
    case RoomMade(s') => (AggregateRoom, s'.id, s'.version)
    case RoomChanged(_, _, s') => (AggregateRoom, s'.id, s'.version)
    case HandStarted(_, _, s', _, _, _) => (AggregateRoom, s'.id, s'.version)
    case HandChanged(_, _, h') => (AggregateHand, h'.id, h'.version)
    case HandEnded(_, _, h', _, _, _, _, _) => (AggregateHand, h'.id, h'.version)
  }

  lemma ExplainHand(db: Database, actor: Text, command: Command, op: Operation, env: Environment) returns (e: Effect)
    requires Keyed(db) && HandOperation(op) && Handle(db, actor, command, op, env).Success?
    ensures Explains(e, db, env.commitOf, Handle(db, actor, command, op, env), AggregateHand, command.aggregateId)
    ensures IntendedOfHand(e, actor, command, op, env)
  {
    match op
    case SubmitHandCommit(commitment) => e := ExplainCommit(db, actor, command, commitment, env);
    case SubmitHandReveal => e := ExplainReveal(db, actor, command, env);
    case SubmitHandContribution => e := ExplainCustodied(db, actor, command, env);
    case LockHandBeacon => e := ExplainLock(db, command, env);
    case MarkHandDealt => e := ExplainDealt(db, command, env);
    case StartHandPlaying => e := ExplainMutation(db, command.aggregateId, env.commitOf,
                                                  H.PlayAction(command.expectedVersion));
    case StartHandSettlement => e := ExplainMutation(db, command.aggregateId, env.commitOf,
                                                     H.SettleAction(command.expectedVersion));
  }

  lemma ExplainMember(db: Database, actor: Text, command: Command, op: Operation, env: Environment) returns (e: Effect)
    requires Keyed(db) && (op.JoinRoom? || op.LeaveRoom? || op.SetRoomReady?)
             && Handle(db, actor, command, op, env).Success?
    ensures Explains(e, db, env.commitOf, Handle(db, actor, command, op, env), AggregateRoom, command.aggregateId)
    ensures IntendedOfMember(e, actor, command, op)
  {
    match op
    case JoinRoom => e := ExplainRoom(db, command.aggregateId, R.JoinAction(actor, command.expectedVersion),
                                      env.commitOf);
    case LeaveRoom => e := ExplainRoom(db, command.aggregateId, R.LeaveAction(actor, command.expectedVersion),
                                       env.commitOf);
    case SetRoomReady(ready) => e := ExplainRoom(db, command.aggregateId,
                                                 R.SetReadyAction(actor, ready, command.expectedVersion), env.commitOf);
  }

  /** The room action that a member's command stands for. */
  ghost predicate IntendedOfMember(e: Effect, actor: Text, command: Command, op: Operation)
    requires op.JoinRoom? || op.LeaveRoom? || op.SetRoomReady?
  {
    && e.RoomChanged?
    && match op
       case JoinRoom => e.a == R.JoinAction(actor, command.expectedVersion)
       case LeaveRoom => e.a == R.LeaveAction(actor, command.expectedVersion)
       case SetRoomReady(ready) => e.a == R.SetReadyAction(actor, ready, command.expectedVersion)
  }

  /** The hand action that a command stands for; a contribution is accepted before the round's publication. */
  ghost predicate IntendedOfHand(e: Effect, actor: Text, command: Command, op: Operation, env: Environment)
    requires HandOperation(op)
  {
    && e.HandChanged?
    && match op
       case SubmitHandCommit(commitment) =>
         e.act == H.CommitAction(actor, commitment, command.expectedVersion) && CheckDeadline(e.h.plan, env.later).None?
       case SubmitHandReveal =>
         && env.digest.Some? && env.recordId.Ok? && CheckDeadline(e.h.plan, env.now).None?
         && e.act == H.RevealAction(actor, env.digest.value, env.recordId.value, command.expectedVersion)
       case SubmitHandContribution =>
         && env.digest.Some? && env.recordId.Ok? && CheckDeadline(e.h.plan, env.now).None?
         && e.act == H.CustodiedAction(actor, env.digest.value, env.recordId.value, command.expectedVersion)
       case LockHandBeacon => env.beacon.Ok? && e.act == H.LockAction(env.beacon.value, command.expectedVersion)
       case MarkHandDealt => env.liveStart.None? && e.act == H.DealtAction(command.expectedVersion)
       case StartHandPlaying => e.act == H.PlayAction(command.expectedVersion)
       case StartHandSettlement => e.act == H.SettleAction(command.expectedVersion)
  }

  /** The effect is the one the command asks for. */
  ghost predicate Intended(e: Effect, actor: Text, command: Command, op: Operation, env: Environment) {
    if op.CreateRoom? then e.RoomMade? && e.s'.id == command.aggregateId && e.s'.owner == actor
    else if op.StartRoomHand? then
      && e.HandStarted? && e.actor == actor && e.h'.id == op.handId && e.h'.mode == op.mode
      && e.s.version == command.expectedVersion && env.setup.Ok? && SetUpAs(e.h', env.setup.value)
    else if HandOperation(op) then IntendedOfHand(e, actor, command, op, env)
    else if EndingOperation(op) then
      e.HandEnded? && e.act == EndingActionOf(op, command.expectedVersion) && e.archived == InLivePlay(e.h.phase)
    else IntendedOfMember(e, actor, command, op)
  }

  lemma ExplainCreateCommand(db: Database, actor: Text, command: Command, op: Operation, env: Environment)
    returns (e: Effect)
    requires Keyed(db) && op.CreateRoom? && Handle(db, actor, command, op, env).Success?
    ensures Explains(e, db, env.commitOf, Handle(db, actor, command, op, env), AggregateRoom, command.aggregateId)
    ensures Intended(e, actor, command, op, env)
  {
    e := ExplainCreate(db, actor, command, env.commitOf);
  }

  lemma ExplainStartCommand(db: Database, actor: Text, command: Command, op: Operation, env: Environment)
    returns (e: Effect)
    requires Keyed(db) && op.StartRoomHand? && op.mode != H.UnknownMode && Handle(db, actor, command, op, env).Success?
    ensures Explains(e, db, env.commitOf, Handle(db, actor, command, op, env), AggregateRoom, command.aggregateId)
    ensures Intended(e, actor, command, op, env)
  {
    e := ExplainStart(db, actor, command, op.handId, op.mode, env);
  }

  /** Every success is the effect the command asks for, on the command's own aggregate, with the version
      replied. */
  lemma Explain(db: Database, actor: Text, command: Command, op: Operation, env: Environment) returns (e: Effect)
    requires Keyed(db) && !(op.StartRoomHand? && op.mode == H.UnknownMode)
    requires Handle(db, actor, command, op, env).Success?
    ensures Explains(e, db, env.commitOf, Handle(db, actor, command, op, env), AggregateOf(op), command.aggregateId)
    ensures Intended(e, actor, command, op, env)
  {
    if op.CreateRoom? {
      e := ExplainCreateCommand(db, actor, command, op, env);
    } else if op.StartRoomHand? {
      e := ExplainStartCommand(db, actor, command, op, env);
    } else if ConcernsRoom(op) {
      e := ExplainMember(db, actor, command, op, env);
    } else if HandOperation(op) {
      e := ExplainHand(db, actor, command, op, env);
    } else {
      e := ExplainEnding(db, command, op, EndingActionOf(op, command.expectedVersion), env);
    }
  }
}
