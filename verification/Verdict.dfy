/** Which deliveries the service accepts, for every command. */
module Verdict {
  import opened Text
  import opened Store
  import opened Handlers
  import opened Service
  import opened Quicknet
  import opened Effects
  import opened Acceptance
  import opened StoreInvariant
  import opened Ledger
  import opened Reachable
  import opened ExpiryRace
  import R = RoomModel
  import H = HandModel

  predicate RoomAllows(db: Database, id: Text, a: R.RoomAction) {
    RoomAt(db, id).Some? && R.Apply(RoomAt(db, id).value, a).Done?
  }

  predicate HandAllows(db: Database, id: Text, commitOf: H.CommitFunction, a: H.HandAction) {
    HandAt(db, id).Some? && H.Apply(HandAt(db, id).value, commitOf, a).Done?
  }

  predicate BeforePublication(db: Database, id: Text, clock: int) {
    HandAt(db, id).Some? && CheckDeadline(HandAt(db, id).value.plan, clock).None?
  }

  predicate MayStart(db: Database, actor: Text, command: Command, handId: Text, mode: H.FairnessMode,
                     env: Environment) {
    && RoomAt(db, command.aggregateId).Some?
    && var t := R.StartHand(RoomAt(db, command.aggregateId).value, actor, handId, command.expectedVersion);
      t.Done? && SetupFits(db, t.state, handId, mode, env)
  }

  /** The rooms and hands as they are, and the collaborators' answers, allow what the command asks for. */
  predicate Allowed(db: Database, actor: Text, command: Command, op: Operation, env: Environment) {
    var id, expected, commitOf := command.aggregateId, command.expectedVersion, env.commitOf;
    match op
    case CreateRoom => ValidIdentifier(id) && ValidIdentifier(actor) && id !in db.rooms
    case JoinRoom => RoomAllows(db, id, R.JoinAction(actor, expected))
    case LeaveRoom => RoomAllows(db, id, R.LeaveAction(actor, expected))
    case SetRoomReady(ready) => RoomAllows(db, id, R.SetReadyAction(actor, ready, expected))
    case StartRoomHand(handId, mode) => MayStart(db, actor, command, handId, mode, env)
    case SubmitHandCommit(commitment) =>
      BeforePublication(db, id, env.later) && HandAllows(db, id, commitOf, H.CommitAction(actor, commitment, expected))
    case SubmitHandReveal =>
      && BeforePublication(db, id, env.now) && RecordFits(db, env)
      && HandAllows(db, id, commitOf, H.RevealAction(actor, env.digest.value, env.recordId.value, expected))
    case SubmitHandContribution =>
      && BeforePublication(db, id, env.now) && RecordFits(db, env)
      && HandAllows(db, id, commitOf, H.CustodiedAction(actor, env.digest.value, env.recordId.value, expected))
    case LockHandBeacon => env.beacon.Ok? && HandAllows(db, id, commitOf, H.LockAction(env.beacon.value, expected))
    case MarkHandDealt => env.liveStart.None? && HandAllows(db, id, commitOf, H.DealtAction(expected))
    case StartHandPlaying => HandAllows(db, id, commitOf, H.PlayAction(expected))
    case StartHandSettlement => HandAllows(db, id, commitOf, H.SettleAction(expected))
    case _ => HandAllows(db, id, commitOf, EndingActionOf(op, expected)) && !Overtaken(db, id, op, env)
  }

  // ------------------------------------------------------------------ the handlers

  lemma RoomHandlerAllows(db: Database, actor: Text, command: Command, op: Operation, env: Environment)
    requires Keyed(db) && ConcernsRoom(op)
    ensures Handle(db, actor, command, op, env).Success? <==> Allowed(db, actor, command, op, env)
  {
    var id, expected := command.aggregateId, command.expectedVersion;
    match op
    case CreateRoom => CreateSucceedsIff(db, actor, command);
    case JoinRoom => MemberSucceedsIff(db, id, R.JoinAction(actor, expected));
    case LeaveRoom => MemberSucceedsIff(db, id, R.LeaveAction(actor, expected));
    case SetRoomReady(ready) => MemberSucceedsIff(db, id, R.SetReadyAction(actor, ready, expected));
    case StartRoomHand(handId, mode) => StartSucceedsIff(db, actor, command, handId, mode, env);
  }

  predicate ContributionOperation(op: Operation) {
    op.SubmitHandCommit? || op.SubmitHandReveal? || op.SubmitHandContribution?
  }

  lemma ContributionHandlerAllows(db: Database, actor: Text, command: Command, op: Operation, env: Environment)
    requires Keyed(db) && ContributionOperation(op)
    ensures Handle(db, actor, command, op, env).Success? <==> Allowed(db, actor, command, op, env)
  {
    match op
    case SubmitHandCommit(commitment) => CommitSucceedsIff(db, actor, command, commitment, env);
    case SubmitHandReveal => RevealSucceedsIff(db, actor, command, env);
    case SubmitHandContribution => CustodiedSucceedsIff(db, actor, command, env);
  }

  lemma ProgressHandlerAllows(db: Database, actor: Text, command: Command, op: Operation, env: Environment)
    requires Keyed(db) && !ConcernsRoom(op) && !ContributionOperation(op) && !EndingOperation(op)
    ensures Handle(db, actor, command, op, env).Success? <==> Allowed(db, actor, command, op, env)
  {
    var id, expected := command.aggregateId, command.expectedVersion;
    match op
    case LockHandBeacon => LockSucceedsIff(db, command, env);
    case MarkHandDealt => DealHandlerAllows(db, command, env);
    case StartHandPlaying => MutationSucceedsIff(db, id, env.commitOf, H.PlayAction(expected));
    case StartHandSettlement => MutationSucceedsIff(db, id, env.commitOf, H.SettleAction(expected));
  }

  lemma DealHandlerAllows(db: Database, command: Command, env: Environment)
    requires Keyed(db)
    ensures HandleDealt(db, command, env).Success?
            <==> env.liveStart.None?
                 && HandAllows(db, command.aggregateId, env.commitOf, H.DealtAction(command.expectedVersion))
  {
    DealSucceedsIff(db, command, env);
  }

  lemma EndingNeedsHand(db: Database, command: Command, op: Operation, act: H.HandAction, env: Environment)
    requires HandleTerminate(db, command, op, act, env).Success?
    ensures HandAllows(db, command.aggregateId, env.commitOf, act)
  {
  }

  /** An ending succeeds exactly when the hand allows it, unless it is overtaken. */
  lemma EndingSucceedsIff(db: Database, command: Command, op: Operation, act: H.HandAction, env: Environment)
    requires Loadable(db) && Linked(db) && EndingOperation(op) && act == EndingActionOf(op, command.expectedVersion)
    ensures HandleTerminate(db, command, op, act, env).Success?
            <==> HandAllows(db, command.aggregateId, env.commitOf, act) && !Overtaken(db, command.aggregateId, op, env)
  {
    if HandAllows(db, command.aggregateId, env.commitOf, act) {
      EndingAlwaysReleases(db, command, op, env);
    } else if HandleTerminate(db, command, op, act, env).Success? {
      EndingNeedsHand(db, command, op, act, env);
    }
  }

  lemma EndingAllowed(db: Database, actor: Text, command: Command, op: Operation, env: Environment)
    requires EndingOperation(op)
    ensures Allowed(db, actor, command, op, env)
            <==> HandAllows(db, command.aggregateId, env.commitOf, EndingActionOf(op, command.expectedVersion))
                 && !Overtaken(db, command.aggregateId, op, env)
  {
  }

  lemma EndingHandlerAllows(db: Database, actor: Text, command: Command, op: Operation, env: Environment)
    requires Loadable(db) && Linked(db) && EndingOperation(op)
    ensures Handle(db, actor, command, op, env).Success? <==> Allowed(db, actor, command, op, env)
  {
    EndingIsHandled(db, actor, command, op, env);
    EndingSucceedsIff(db, command, op, EndingActionOf(op, command.expectedVersion), env);
    EndingAllowed(db, actor, command, op, env);
  }

  lemma EndingIsHandled(db: Database, actor: Text, command: Command, op: Operation, env: Environment)
    requires EndingOperation(op)
    ensures Handle(db, actor, command, op, env)
            == HandleTerminate(db, command, op, EndingActionOf(op, command.expectedVersion), env)
  {
  }

  lemma HandlerAllows(db: Database, actor: Text, command: Command, op: Operation, env: Environment)
    requires Loadable(db) && Linked(db)
    ensures Handle(db, actor, command, op, env).Success? <==> Allowed(db, actor, command, op, env)
  {
    LoadableIsKeyed(db);
    if ConcernsRoom(op) {
      RoomHandlerAllows(db, actor, command, op, env);
    } else if EndingOperation(op) {
      EndingHandlerAllows(db, actor, command, op, env);
    } else if ContributionOperation(op) {
      ContributionHandlerAllows(db, actor, command, op, env);
    } else {
      ProgressHandlerAllows(db, actor, command, op, env);
    }
  }

  // ------------------------------------------------------------------ the service

  lemma AttemptAcceptsIff(db: Database, actor: Text, command: Command, env: Environment, handled: Handled)
    requires KeyOf(actor, command) in handled.db.ledger && Completed(db.ledger)
    ensures NewlyAccepted(Attempt(db, actor, command, env, handled).1)
            <==> && KeyOf(actor, command) !in db.ledger && Fresh(command, env.now)
                 && command.clientSeq > LastSequence(db, SequenceOf(actor, command))
                 && handled.Success? && env.eventIds
  {
    if KeyOf(actor, command) in db.ledger {
      assert EntryFine(KeyOf(actor, command), db.ledger[KeyOf(actor, command)]);
    }
  }

  lemma SameLoads(db: Database, later: Database, id: Text)
    requires later.rooms == db.rooms && later.hands == db.hands
    ensures RoomAt(later, id) == RoomAt(db, id) && HandAt(later, id) == HandAt(db, id)
  {
  }

  /** The claim of a new command changes nothing that the command is judged by. */
  lemma ClaimAllowsAlike(db: Database, actor: Text, command: Command, op: Operation, env: Environment)
    ensures Allowed(ClaimedBy(db, actor, command), actor, command, op, env) <==> Allowed(db, actor, command, op, env)
  {
    SameLoads(db, ClaimedBy(db, actor, command), command.aggregateId);
  }

  /** The command is well formed and new, its times and its sequence are right, and the store works. */
  predicate Received(db: Database, d: Delivery) {
    Proceeds(db, d) && !(d.op.StartRoomHand? && d.op.mode == H.UnknownMode) && d.env.eventIds
  }

  /** Exactly when a delivery is newly accepted, for every command. */
  lemma AcceptedIff(db: Database, d: Delivery)
    requires Consistent(db)
    ensures NewlyAccepted(Reply(db, d))
            <==> Received(db, d) && Allowed(db, d.actor, Bound(d.command, d.op, d.env), d.op, d.env)
  {
    var command := Bound(d.command, d.op, d.env);
    var claimed := ClaimedBy(db, d.actor, command);
    var tx := Claim(db, KeyFor(d), command).0;
    AttemptAcceptsIff(db, d.actor, command, d.env, Handle(tx, d.actor, command, d.op, d.env));
    if KeyFor(d) !in db.ledger {
      SameRows(db, claimed);
      HandlerAllows(claimed, d.actor, command, d.op, d.env);
      ClaimAllowsAlike(db, d.actor, command, d.op, d.env);
    }
  }

  /** In every reachable store a delivery is newly accepted exactly when the command is received and what it asks
      for is allowed. */
  lemma {:induction false} ReachableAcceptedIff(ds: seq<Delivery>, d: Delivery)
    requires Hashing(ds)
    ensures var db := Reachable.Run(EMPTY_DATABASE, ds);
            NewlyAccepted(Reply(db, d))
            <==> Received(db, d) && Allowed(db, d.actor, Bound(d.command, d.op, d.env), d.op, d.env)
  {
    EveryReachableStoreIsConsistent(ds);
    AcceptedIff(Reachable.Run(EMPTY_DATABASE, ds), d);
  }
}
