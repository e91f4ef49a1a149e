/** What a rejection says about the room or the hand that it comes from. */
module Rejections {
  import opened Bytes
  import opened Text
  import opened Domain
  import opened Store
  import opened Handlers
  import opened Service
  import opened Quicknet
  import opened Effects
  import opened Acceptance
  import opened StoreInvariant
  import opened Ledger
  import opened Reachable
  import opened Verdict
  import opened Admission
  import RoomMeaning
  import HandMeaning
  import R = RoomModel
  import H = HandModel

  /** What the code says of the room is true. */
  ghost predicate RoomCodeTrue(s: R.RoomState, a: R.RoomAction, code: Code) {
    match code
    case CodeVersionConflict => a.expected != s.version
    case CodeInvalidCommand =>
      RoomMeaning.Against(s, a, InvalidArgument) || RoomMeaning.Against(s, a, NoStateChange)
    case CodeForbidden => RoomMeaning.Against(s, a, Forbidden) || RoomMeaning.Against(s, a, OwnerMustRemain)
    case CodeNotSeated => RoomMeaning.Against(s, a, NotSeated)
    case CodeRoomFull => RoomMeaning.Against(s, a, RoomFull)
    case CodeRoomNotReady => RoomMeaning.Against(s, a, RoomNotReady)
    case CodeHandActive => RoomMeaning.Against(s, a, HandIsActive)
    case CodeWrongPhase => RoomMeaning.Against(s, a, RoomIsClosed) || RoomMeaning.Against(s, a, AlreadySeated)
    case _ => false
  }

  /** What the code says of the hand is true. A second custodied contribution is told that the phase is wrong. */
  ghost predicate HandCodeTrue(h: H.HandState, commitOf: H.CommitFunction, a: H.HandAction, code: Code) {
    match code
    case CodeVersionConflict => a.expected != h.version
    case CodeInvalidCommand => !HandMeaning.WellFormed(a)
    case CodeNotSeated => HandMeaning.Against(h, commitOf, a, NotSeated)
    case CodeWrongPhase =>
      !HandMeaning.InPhase(h, a) || (a.CustodiedAction? && HandMeaning.Against(h, commitOf, a, DuplicateContribution))
    case CodeHandTerminal => H.Terminal(h.phase)
    case CodeDuplicateContribution => HandMeaning.Against(h, commitOf, a, DuplicateContribution)
    case CodeCommitmentMismatch => HandMeaning.Against(h, commitOf, a, CommitmentMismatch)
    case CodeBeaconMismatch => HandMeaning.Against(h, commitOf, a, BeaconMismatch)
    case _ => false
  }

  predicate MemberOperation(op: Operation) {
    op.JoinRoom? || op.LeaveRoom? || op.SetRoomReady?
  }

  function MemberActionOf(op: Operation, actor: Text, expected: nat): R.RoomAction
    requires MemberOperation(op)
  {
    match op
    case JoinRoom => R.JoinAction(actor, expected)
    case LeaveRoom => R.LeaveAction(actor, expected)
    case SetRoomReady(ready) => R.SetReadyAction(actor, ready, expected)
  }

  lemma RoomIsLoaded(db: Database, id: Text)
    requires Loadable(db) && id in db.rooms
    ensures RoomAt(db, id).Some? && R.Invariant(RoomAt(db, id).value) && RoomAt(db, id).value.id == id
    ensures db.rooms[id].version == RoomAt(db, id).value.version
  {
    assert RoomRowFine(id, db.rooms[id]);
    RoomMeaning.LoadableIffSaved(db.rooms[id]);
  }

  /** Why the handler of a member's command fails, when it does. */
  lemma MemberFailsTruly(db: Database, id: Text, a: R.RoomAction)
    requires Loadable(db) && R.ActorNamed(a) && !a.FinishHandAction? && MutateRoom(db, id, a).Failure?
    ensures var r := MutateRoom(db, id, a);
            if id !in db.rooms then r.error == NotFound && r.currentVersion == 0
            else
              && RoomAt(db, id).Some? && r.currentVersion == RoomAt(db, id).value.version
              && RoomMeaning.Against(RoomAt(db, id).value, a, r.error)
  {
    if id in db.rooms {
      RoomIsLoaded(db, id);
      var s := RoomAt(db, id).value;
      if R.Apply(s, a).Done? {
        R.OneEventPerTransition(s, a);
      } else {
        RoomMeaning.RefusalsAreTrue(s, a);
      }
    }
  }

  lemma RoomCodeOf(s: R.RoomState, a: R.RoomAction, e: Error)
    requires RoomMeaning.Against(s, a, e) && !a.FinishHandAction?
    ensures BusinessCode(e).Some? && RoomCodeTrue(s, a, BusinessCode(e).value)
    ensures RejectedVersion(e, s.version) == s.version
  {
  }

  lemma SettledFailure(db: Database, actor: Text, command: Command, env: Environment, handled: Handled)
    requires KeyOf(actor, command) in handled.db.ledger && KeyOf(actor, command) !in db.ledger && handled.Failure?
    requires Fresh(command, env.now) && command.clientSeq > LastSequence(db, SequenceOf(actor, command))
    ensures Attempt(db, actor, command, env, handled).1
            == match BusinessCode(handled.error)
               case None => Err(handled.error)
               case Some(code) =>
                 Ok(Rejected(command, code, RejectedVersion(handled.error, handled.currentVersion)))
  {
  }

  lemma ReachedReply(db: Database, d: Delivery)
    requires Reaches(db, d)
    ensures var command := Bound(d.command, d.op, d.env);
            var handled := Handle(ClaimedBy(db, d.actor, command), d.actor, command, d.op, d.env);
            Reply(db, d) == Attempt(db, d.actor, command, d.env, handled).1
  {
  }

  lemma MemberIsMutation(db: Database, actor: Text, command: Command, op: Operation, env: Environment)
    requires MemberOperation(op)
    ensures Handle(db, actor, command, op, env)
            == MutateRoom(db, command.aggregateId, MemberActionOf(op, actor, command.expectedVersion))
  {
  }

  /** A member's command that reaches its handler either fails with a server error, or is accepted, or says truly why
      not, with the version the room has. */
  lemma MemberRejectionTellsWhy(db: Database, d: Delivery)
    requires Consistent(db) && MemberOperation(d.op) && Reaches(db, d)
    requires Reply(db, d).Ok? && !Reply(db, d).value.accepted
    ensures var r, id := Reply(db, d).value, d.command.aggregateId;
            && r.failure.Some?
            && if id !in db.rooms then r.failure.value == CodeNotFound && r.aggregateVersion == 0
               else
                 && RoomAt(db, id).Some? && r.aggregateVersion == RoomAt(db, id).value.version
                 && RoomCodeTrue(RoomAt(db, id).value, MemberActionOf(d.op, d.actor, d.command.expectedVersion),
                                 r.failure.value)
  {
    var command := Bound(d.command, d.op, d.env);
    var claimed := ClaimedBy(db, d.actor, command);
    var a, id := MemberActionOf(d.op, d.actor, d.command.expectedVersion), d.command.aggregateId;
    BlankIsEmpty();
    SameRows(db, claimed);
    SameLoads(db, claimed, id);
    MemberIsMutation(claimed, d.actor, command, d.op, d.env);
    ReachedReply(db, d);
    if MutateRoom(claimed, id, a).Failure? {
      MemberFailsTruly(claimed, id, a);
      SettledFailure(db, d.actor, command, d.env, MutateRoom(claimed, id, a));
      if id in db.rooms {
        RoomCodeOf(RoomAt(db, id).value, a, MutateRoom(claimed, id, a).error);
      }
    }
  }

  /** The collaborators give what the command needs besides the hand's own consent. */
  predicate Answered(db: Database, id: Text, op: Operation, env: Environment) {
    match op
    case SubmitHandCommit(_) => BeforePublication(db, id, env.later)
    case SubmitHandReveal => BeforePublication(db, id, env.now) && RecordFits(db, env)
    case SubmitHandContribution => BeforePublication(db, id, env.now) && RecordFits(db, env)
    case LockHandBeacon => env.beacon.Ok?
    case MarkHandDealt => env.liveStart.None?
    case _ => !Overtaken(db, id, op, env)
  }

  function HandActionOf(db: Database, id: Text, op: Operation, actor: Text, expected: nat,
                        env: Environment): H.HandAction
    requires !ConcernsRoom(op) && Answered(db, id, op, env)
  {
    if EndingOperation(op) then EndingActionOf(op, expected)
    else
      match op
      case SubmitHandCommit(commitment) => H.CommitAction(actor, commitment, expected)
      case SubmitHandReveal => H.RevealAction(actor, env.digest.value, env.recordId.value, expected)
      case SubmitHandContribution => H.CustodiedAction(actor, env.digest.value, env.recordId.value, expected)
      case LockHandBeacon => H.LockAction(env.beacon.value, expected)
      case MarkHandDealt => H.DealtAction(expected)
      case StartHandPlaying => H.PlayAction(expected)
      case StartHandSettlement => H.SettleAction(expected)
  }

  /** The failure says truly why the hand does not allow the action, and names the hand's version. */
  ghost predicate FailsTruly(h: H.HandState, commitOf: H.CommitFunction, a: H.HandAction, r: Handled) {
    r.Failure? ==>
      && BusinessCode(r.error).Some? && HandCodeTrue(h, commitOf, a, BusinessCode(r.error).value)
      && RejectedVersion(r.error, r.currentVersion) == h.version
  }

  lemma HandCodeOf(h: H.HandState, commitOf: H.CommitFunction, a: H.HandAction, r: Handled)
    requires r.Failure? && r.currentVersion == h.version && HandMeaning.Against(h, commitOf, a, r.error)
    ensures FailsTruly(h, commitOf, a, r)
  {
  }

  /** The row holds the hand. */
  predicate Row(db: Database, stored: H.HandSnapshot, h: H.HandState) {
    && stored.body.id in db.hands && db.hands[stored.body.id] == stored && H.Restore(stored) == Ok(h) && H.Invariant(h)
    && stored.body.id == h.id && stored.body.version == h.version && stored.body.mode == h.mode
  }

  lemma LoadedRow(db: Database, id: Text)
    requires Loadable(db) && id in db.hands
    ensures HandAt(db, id).Some? && Row(db, db.hands[id], HandAt(db, id).value) && HandAt(db, id).value.id == id
  {
    assert HandRowFine(id, db.hands[id]);
    HandLoaded(db.hands[id]);
  }

  /** A refused transition is what makes the writing of a changed hand fail. */
  lemma StoringFailsTruly(db: Database, stored: H.HandSnapshot, h: H.HandState, commitOf: H.CommitFunction,
                          a: H.HandAction)
    requires Row(db, stored, h)
    ensures FailsTruly(h, commitOf, a, StoreHand(db, stored, H.Apply(h, commitOf, a)))
  {
    var t := H.Apply(h, commitOf, a);
    if t.Done? {
      HandLemmas.EventsAreNumbered(h, commitOf, a);
      StoringSucceedsIff(db, stored, t);
    } else {
      HandMeaning.RefusalsAreTrue(h, commitOf, a);
      HandCodeOf(h, commitOf, a, StoreHand(db, stored, t));
    }
  }

  lemma ContributionFailsTruly(db: Database, stored: H.HandSnapshot, h: H.HandState, commitOf: H.CommitFunction,
                               a: H.HandAction, recordId: Text)
    requires Row(db, stored, h) && recordId !in db.records
    ensures FailsTruly(h, commitOf, a, StoreContribution(db, stored, H.Apply(h, commitOf, a), recordId, true))
  {
    var t := H.Apply(h, commitOf, a);
    if t.Done? {
      HandLemmas.EventsAreNumbered(h, commitOf, a);
      StoringRecordSucceedsIff(db, stored, t, recordId, true);
    } else {
      HandMeaning.RefusalsAreTrue(h, commitOf, a);
      HandCodeOf(h, commitOf, a, StoreContribution(db, stored, t, recordId, true));
    }
  }

  lemma NoSeatNoPlayer(h: H.HandState, actor: Text)
    requires ContributionSeat(h, actor).None?
    ensures !HandMeaning.Plays(h, actor)
  {
  }

  lemma RevealUnfolds(db: Database, actor: Text, command: Command, stored: H.HandSnapshot, h: H.HandState,
                      env: Environment)
    requires Row(db, stored, h) && command.aggregateId == h.id && RecordFits(db, env)
    requires CheckDeadline(h.plan, env.now).None?
    ensures HandleReveal(db, actor, command, env)
            == if ContributionSeat(h, actor).None? then Failure(db, NotSeated, h.version)
               else StoreContribution(db, stored,
                                      H.SubmitReveal(h, env.commitOf, actor, env.digest.value, env.recordId.value,
                                                     command.expectedVersion), env.recordId.value, true)
  {
  }

  lemma RevealFailsTruly(db: Database, actor: Text, command: Command, stored: H.HandSnapshot, h: H.HandState,
                         env: Environment)
    requires Row(db, stored, h) && command.aggregateId == h.id && RecordFits(db, env)
    requires CheckDeadline(h.plan, env.now).None?
    ensures FailsTruly(h, env.commitOf,
                       H.RevealAction(actor, env.digest.value, env.recordId.value, command.expectedVersion),
                       HandleReveal(db, actor, command, env))
  {
    var a := H.RevealAction(actor, env.digest.value, env.recordId.value, command.expectedVersion);
    RevealUnfolds(db, actor, command, stored, h, env);
    if ContributionSeat(h, actor).None? {
      NoSeatNoPlayer(h, actor);
      HandCodeOf(h, env.commitOf, a, Failure(db, NotSeated, h.version));
    } else {
      ContributionFailsTruly(db, stored, h, env.commitOf, a, env.recordId.value);
    }
  }

  lemma FoundSeatIsHeld(h: H.HandState, actor: Text)
    requires H.ValidHandSeats(h.seats) && ContributionSeat(h, actor).Some?
    ensures 1 <= ContributionSeat(h, actor).value <= 3
    ensures HandMeaning.Holds(h, actor, ContributionSeat(h, actor).value - 1)
  {
    var seat := ContributionSeat(h, actor).value;
    if h.seats[0].account == actor {
      assert h.seats[0] == H.HandSeat(seat, actor);
    } else if h.seats[1].account == actor {
      assert h.seats[1] == H.HandSeat(seat, actor);
    } else {
      assert h.seats[2] == H.HandSeat(seat, actor);
    }
  }

  /** The seat has contributed already. */
  predicate Taken(h: H.HandState, seat: nat)
    requires 1 <= seat <= 3
  {
    h.contributions[seat - 1].commitment != ZeroBlock() || h.contributions[seat - 1].revealed
  }

  lemma CustodiedUnfolds(db: Database, actor: Text, command: Command, stored: H.HandSnapshot, h: H.HandState,
                         env: Environment)
    requires Row(db, stored, h) && command.aggregateId == h.id && RecordFits(db, env)
    requires CheckDeadline(h.plan, env.now).None?
    ensures var seat := ContributionSeat(h, actor);
            HandleContribution(db, actor, command, env)
            == if h.mode != H.ClientCustodied then Failure(db, WrongPhase, h.version)
               else if seat.None? then Failure(db, NotSeated, h.version)
               else if h.phase != H.Committing || !(1 <= seat.value <= 3) || Taken(h, seat.value)
                    then Failure(db, WrongPhase, h.version)
               else StoreContribution(db, stored,
                                      H.SubmitCustodied(h, env.commitOf, actor, env.digest.value, env.recordId.value,
                                                        command.expectedVersion), env.recordId.value, true)
  {
  }

  lemma TakenIsDuplicate(h: H.HandState, commitOf: H.CommitFunction, a: H.HandAction)
    requires H.Invariant(h) && a.CustodiedAction? && ContributionSeat(h, a.actor).Some?
    requires 1 <= ContributionSeat(h, a.actor).value <= 3 && Taken(h, ContributionSeat(h, a.actor).value)
    ensures HandMeaning.Against(h, commitOf, a, DuplicateContribution)
  {
    var i := ContributionSeat(h, a.actor).value - 1;
    FoundSeatIsHeld(h, a.actor);
    assert h.contributions[i].revealed ==> h.contributions[i].commitment != ZeroBlock();
  }

  lemma CustodiedFailsTruly(db: Database, actor: Text, command: Command, stored: H.HandSnapshot, h: H.HandState,
                            env: Environment)
    requires Row(db, stored, h) && command.aggregateId == h.id && RecordFits(db, env)
    requires CheckDeadline(h.plan, env.now).None?
    ensures FailsTruly(h, env.commitOf,
                       H.CustodiedAction(actor, env.digest.value, env.recordId.value, command.expectedVersion),
                       HandleContribution(db, actor, command, env))
  {
    var a := H.CustodiedAction(actor, env.digest.value, env.recordId.value, command.expectedVersion);
    CustodiedUnfolds(db, actor, command, stored, h, env);
    var seat := ContributionSeat(h, actor);
    if h.mode != H.ClientCustodied {
    } else if seat.None? {
      NoSeatNoPlayer(h, actor);
      HandCodeOf(h, env.commitOf, a, Failure(db, NotSeated, h.version));
    } else {
      FoundSeatIsHeld(h, actor);
      if h.phase == H.Committing {
        if Taken(h, seat.value) {
          TakenIsDuplicate(h, env.commitOf, a);
        } else {
          ContributionFailsTruly(db, stored, h, env.commitOf, a, env.recordId.value);
        }
      }
    }
  }

  lemma EndingFailsTruly(db: Database, command: Command, op: Operation, h: H.HandState, env: Environment)
    requires Loadable(db) && Linked(db) && EndingOperation(op) && !Overtaken(db, command.aggregateId, op, env)
    requires command.aggregateId in db.hands && Row(db, db.hands[command.aggregateId], h) && command.aggregateId == h.id
    ensures FailsTruly(h, env.commitOf, EndingActionOf(op, command.expectedVersion),
                       HandleTerminate(db, command, op, EndingActionOf(op, command.expectedVersion), env))
  {
    var act := EndingActionOf(op, command.expectedVersion);
    if H.Apply(h, env.commitOf, act).Done? {
      EndingAlwaysReleases(db, command, op, env);
    } else {
      HandMeaning.RefusalsAreTrue(h, env.commitOf, act);
      RefusedEnding(db, command, op, act, h, env);
      HandCodeOf(h, env.commitOf, act, HandleTerminate(db, command, op, act, env));
    }
  }

  lemma RefusedEnding(db: Database, command: Command, op: Operation, act: H.HandAction, h: H.HandState,
                      env: Environment)
    requires command.aggregateId in db.hands && Row(db, db.hands[command.aggregateId], h)
    requires H.Apply(h, env.commitOf, act).Refused?
    ensures HandleTerminate(db, command, op, act, env)
            == Failure(db, H.Apply(h, env.commitOf, act).error, h.version)
  {
  }

  lemma CommitUnfolds(db: Database, actor: Text, command: Command, stored: H.HandSnapshot, h: H.HandState,
                      commitment: Block, env: Environment)
    requires Row(db, stored, h) && command.aggregateId == h.id && CheckDeadline(h.plan, env.later).None?
    ensures HandleCommit(db, actor, command, commitment, env)
            == StoreHand(db, stored, H.Apply(h, env.commitOf,
                                             H.CommitAction(actor, commitment, command.expectedVersion)))
  {
  }

  lemma LockUnfolds(db: Database, command: Command, stored: H.HandSnapshot, h: H.HandState, env: Environment)
    requires Row(db, stored, h) && command.aggregateId == h.id && env.beacon.Ok?
    ensures HandleLock(db, command, env)
            == StoreHand(db, stored, H.Apply(h, env.commitOf, H.LockAction(env.beacon.value, command.expectedVersion)))
  {
  }

  lemma DealUnfolds(db: Database, command: Command, stored: H.HandSnapshot, h: H.HandState, env: Environment)
    requires Row(db, stored, h) && command.aggregateId == h.id && env.liveStart.None?
    ensures HandleDealt(db, command, env)
            == StoreHand(db, stored, H.Apply(h, env.commitOf, H.DealtAction(command.expectedVersion)))
  {
  }

  lemma MutationUnfolds(db: Database, stored: H.HandSnapshot, h: H.HandState, commitOf: H.CommitFunction,
                        a: H.HandAction)
    requires Row(db, stored, h)
    ensures MutateHand(db, h.id, commitOf, a) == StoreHand(db, stored, H.Apply(h, commitOf, a))
  {
  }

  lemma PlainFailsTruly(db: Database, actor: Text, command: Command, op: Operation, stored: H.HandSnapshot,
                        h: H.HandState, a: H.HandAction, env: Environment)
    requires Row(db, stored, h) && command.aggregateId == h.id
    requires match op
             case SubmitHandCommit(commitment) =>
               CheckDeadline(h.plan, env.later).None? && a == H.CommitAction(actor, commitment, command.expectedVersion)
             case LockHandBeacon => env.beacon.Ok? && a == H.LockAction(env.beacon.value, command.expectedVersion)
             case MarkHandDealt => env.liveStart.None? && a == H.DealtAction(command.expectedVersion)
             case StartHandPlaying => a == H.PlayAction(command.expectedVersion)
             case StartHandSettlement => a == H.SettleAction(command.expectedVersion)
             case _ => false
    ensures FailsTruly(h, env.commitOf, a, Handle(db, actor, command, op, env))
  {
    match op {
      case SubmitHandCommit(commitment) => CommitUnfolds(db, actor, command, stored, h, commitment, env);
      case LockHandBeacon => LockUnfolds(db, command, stored, h, env);
      case MarkHandDealt => DealUnfolds(db, command, stored, h, env);
      case StartHandPlaying => MutationUnfolds(db, stored, h, env.commitOf, a);
      case StartHandSettlement => MutationUnfolds(db, stored, h, env.commitOf, a);
    }
    StoringFailsTruly(db, stored, h, env.commitOf, a);
  }

  /** Where the collaborators give what is needed, the handler of a command on a hand fails truly, if it fails. */
  lemma HandFailsTruly(db: Database, actor: Text, command: Command, op: Operation, h: H.HandState, env: Environment)
    requires Loadable(db) && Linked(db) && !ConcernsRoom(op) && HandAt(db, command.aggregateId) == Some(h)
    requires Answered(db, command.aggregateId, op, env)
    ensures FailsTruly(h, env.commitOf, HandActionOf(db, command.aggregateId, op, actor, command.expectedVersion, env),
                       Handle(db, actor, command, op, env))
  {
    var id := command.aggregateId;
    LoadedRow(db, id);
    if op.SubmitHandReveal? {
      RevealFailsTruly(db, actor, command, db.hands[id], h, env);
    } else if op.SubmitHandContribution? {
      CustodiedFailsTruly(db, actor, command, db.hands[id], h, env);
    } else if EndingOperation(op) {
      EndingIsHandled(db, actor, command, op, env);
      EndingFailsTruly(db, command, op, h, env);
    } else {
      PlainFailsTruly(db, actor, command, op, db.hands[id], h,
                      HandActionOf(db, id, op, actor, command.expectedVersion, env), env);
    }
  }

  lemma ClaimAnswersAlike(db: Database, actor: Text, command: Command, op: Operation, env: Environment)
    ensures Answered(ClaimedBy(db, actor, command), command.aggregateId, op, env)
            <==> Answered(db, command.aggregateId, op, env)
  {
    SameLoads(db, ClaimedBy(db, actor, command), command.aggregateId);
  }

  /** A rejection of a command on a stored hand whose collaborators gave what it needed says truly why the hand does
      not allow it, with the version the hand has. */
  lemma HandRejectionTellsWhy(db: Database, d: Delivery, h: H.HandState)
    requires Consistent(db) && !ConcernsRoom(d.op) && Reaches(db, d) && HandAt(db, d.command.aggregateId) == Some(h)
    requires Answered(db, d.command.aggregateId, d.op, d.env)
    requires Reply(db, d).Ok? && !Reply(db, d).value.accepted
    ensures Reply(db, d).value.failure.Some? && Reply(db, d).value.aggregateVersion == h.version
    ensures HandCodeTrue(h, d.env.commitOf, HandActionOf(db, d.command.aggregateId, d.op, d.actor,
                                                         d.command.expectedVersion, d.env),
                         Reply(db, d).value.failure.value)
  {
    var command := Bound(d.command, d.op, d.env);
    var claimed := ClaimedBy(db, d.actor, command);
    SameRows(db, claimed);
    SameLoads(db, claimed, command.aggregateId);
    ClaimAnswersAlike(db, d.actor, command, d.op, d.env);
    ReachedReply(db, d);
    HandFailsTruly(claimed, d.actor, command, d.op, h, d.env);
    TrueFailureIsReplied(db, d.actor, command, d.env, Handle(claimed, d.actor, command, d.op, d.env), h,
                         HandActionOf(db, command.aggregateId, d.op, d.actor, command.expectedVersion, d.env));
  }

  lemma TrueFailureIsReplied(db: Database, actor: Text, command: Command, env: Environment, handled: Handled,
                             h: H.HandState, a: H.HandAction)
    requires KeyOf(actor, command) in handled.db.ledger && KeyOf(actor, command) !in db.ledger
    requires Fresh(command, env.now) && command.clientSeq > LastSequence(db, SequenceOf(actor, command))
    requires FailsTruly(h, env.commitOf, a, handled)
    ensures var r := Attempt(db, actor, command, env, handled).1;
            r.Ok? && !r.value.accepted ==>
              && r.value.failure.Some? && r.value.aggregateVersion == h.version
              && HandCodeTrue(h, env.commitOf, a, r.value.failure.value)
  {
    if handled.Failure? {
      SettledFailure(db, actor, command, env, handled);
    }
  }

  /** Whoever finds a version in conflict, the reply names the version that was found. */
  lemma ConflictNamesActual(db: Database, d: Delivery, expected: nat, actual: nat)
    requires Reaches(db, d)
    requires var command := Bound(d.command, d.op, d.env);
             var handled := Handle(ClaimedBy(db, d.actor, command), d.actor, command, d.op, d.env);
             handled.Failure? && handled.error == VersionConflict(expected, actual)
    ensures Reply(db, d) == Ok(Rejected(Bound(d.command, d.op, d.env), CodeVersionConflict, actual))
  {
    var command := Bound(d.command, d.op, d.env);
    ReachedReply(db, d);
    SettledFailure(db, d.actor, command, d.env,
                   Handle(ClaimedBy(db, d.actor, command), d.actor, command, d.op, d.env));
  }
}
