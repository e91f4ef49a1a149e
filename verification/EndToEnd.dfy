/** A client and the service joined by a network that loses, delays and duplicates messages. */
module EndToEnd {
  import opened Bytes
  import opened Text
  import opened Domain
  import opened Store
  import opened Handlers
  import opened Service
  import opened Outbox
  import opened Ledger
  import opened Reachable
  import opened RoomClient
  import H = HandModel

  /** Where the coordinator's suspended async call is. */
  datatype Stage = Idle | Naming(draft: Draft) | Awaiting(request: Request, retrying: bool)

  /** `sent` and `replies` are all messages that were ever put on the network: any of them may arrive, late or
      again, or never. `adopted` and `refused` record what the coordinator's calls returned. */
  datatype World = World(
    client: Client, stage: Stage, sent: set<Request>, replies: set<(Request, CommandResult)>, db: Database,
    adopted: set<(Request, RoomView)>, refused: set<Request>)

  datatype Move =
    | CallPerform(op: RoomOperation, roomId: Text, expectedVersion: int)
    | RaiseByJoin(roomId: Text, lastClientSequence: int)
    | CallRetry
    | RestoreFromServer(roomId: Text, version: int, lastClientSequence: int)
    | ForgetStale(roomId: Text)
    | IdentityArrives(requestId: Option<Text>)
    | ReplyArrives(request: Request, result: CommandResult)
    | GarbageArrives(reply: WireReply)
    | TransportFails
    | CommandArrives(request: Request, issued: int, expires: int, env: Environment)
    | OtherCommand(d: Delivery)

  /** Who the client is, and the digest of payloads, which is the same for every command. */
  datatype Setting = Setting(actor: Text, digest: (CommandName, Operation) -> Block)

  /** The gateway's durable command for a request; its times are the server's. */
  function CommandFor(request: Request, issued: int, expires: int): Command {
    var d := request.draft;
    Command(true, NameOf(d.op), request.requestId, AggregateRoom, d.roomId, d.clientSeq, d.expectedVersion, issued,
            expires, ZeroBlock(), true)
  }

  function DeliveryFor(setting: Setting, request: Request, issued: int, expires: int, env: Environment): Delivery {
    Delivery(setting.actor, CommandFor(request, issued, expires), request.draft.op, env)
  }

  function KeyOfRequest(setting: Setting, request: Request): LedgerKey {
    LedgerKey(setting.actor, request.requestId)
  }

  /** The response to `request` carrying this result. */
  function WireOf(request: Request, r: CommandResult, code: Text): WireReply {
    WireReply(true, request.requestId, NameOf(request.draft.op),
              Some(Durable(true, r.aggregateId, r.commandId, Some(r.aggregateVersion), Some(r.accepted),
                           if r.failure.Some? then Some(code) else None, None)))
  }

  const FAILURE_CODE := Ascii("REJECTED")

  /** What may happen in a world. New identifiers are fresh; other commands do not use the client's. */
  ghost predicate Possible(setting: Setting, w: World, m: Move) {
    match m
    case IdentityArrives(id) =>
      w.stage.Naming?
      && (id.Some? ==>
          LedgerKey(setting.actor, id.value) !in w.db.ledger && forall q :: q in w.sent ==> q.requestId != id.value)
    case ReplyArrives(q, result) => w.stage.Awaiting? && (q, result) in w.replies
    case GarbageArrives(reply) => w.stage.Awaiting? && !WellFormed(w.stage.request, reply)
    case TransportFails => w.stage.Awaiting?
    case CommandArrives(q, _, _, env) => q in w.sent && H.NeverZero(env.commitOf) && env.payloadDigest == setting.digest
    case OtherCommand(d) =>
      H.NeverZero(d.env.commitOf)
      && (d.actor == setting.actor ==> forall q :: q in w.sent ==> q.requestId != d.command.commandId)
    case _ => true
  }

  function StageAfterDraft(w: World, r: Promised<Draft>): Stage {
    if r.Returned? then Naming(r.value) else w.stage
  }

  function Received(w: World, reply: WireReply): World
    requires w.stage.Awaiting?
  {
    var q := w.stage.request;
    var (c, r) := Accept(w.client, q, reply);
    w.(client := c, stage := Idle,
       adopted := if r.Returned? then w.adopted + {(q, r.value)} else w.adopted,
       refused := if r.Threw? && r.reason.RejectedByServer? then w.refused + {q} else w.refused)
  }

  function Served(setting: Setting, w: World, q: Request, issued: int, expires: int, env: Environment): World {
    var d := DeliveryFor(setting, q, issued, expires, env);
    var r := Reply(w.db, d);
    w.(db := After(w.db, d), replies := if r.Ok? then w.replies + {(q, r.value)} else w.replies)
  }

  function Next(setting: Setting, w: World, m: Move): World {
    match m
    case CallPerform(op, roomId, expectedVersion) =>
      var (c, r) := Begin(w.client, op, roomId, expectedVersion);
      w.(client := c, stage := StageAfterDraft(w, r))
    case RaiseByJoin(roomId, last) => w.(client := RaiseSequence(w.client, roomId, last).0)
    case CallRetry =>
      var (c, r) := BeginRetry(w.client);
      w.(client := c, stage := if r.Returned? then Awaiting(r.value, true) else w.stage)
    case RestoreFromServer(roomId, version, last) => w.(client := Restore(w.client, roomId, version, last).0)
    case ForgetStale(roomId) => w.(client := Forget(w.client, roomId).0)
    case IdentityArrives(id) =>
      if !w.stage.Naming? then w
      else
        var (c, r) := Name(w.client, w.stage.draft, id);
        if r.Returned? then w.(client := c, stage := Awaiting(r.value, false), sent := w.sent + {r.value})
        else w.(client := c, stage := Idle)
    case ReplyArrives(q, result) => if w.stage.Awaiting? then Received(w, WireOf(q, result, FAILURE_CODE)) else w
    case GarbageArrives(reply) => if w.stage.Awaiting? then Received(w, reply) else w
    case TransportFails =>
      if w.stage.Awaiting? then w.(client := Lose(w.client, w.stage.retrying), stage := Idle) else w
    case CommandArrives(q, issued, expires, env) => Served(setting, w, q, issued, expires, env)
    case OtherCommand(d) => w.(db := After(w.db, d))
  }

  // ------------------------------------------------------------------ the invariant

  /** A request stands for one action: identifiers and sequences are never shared. */
  ghost predicate RequestsDistinct(sent: set<Request>) {
    forall p, q :: p in sent && q in sent && p != q ==>
      p.requestId != q.requestId && (p.draft.roomId == q.draft.roomId ==> p.draft.clientSeq != q.draft.clientSeq)
  }

  ghost predicate StageFits(w: World) {
    match w.stage
    case Idle => !w.client.inFlight
    case Naming(d) =>
      && w.client.inFlight && !w.client.uncertain && d.clientSeq <= Last(w.client.lastSequence, d.roomId)
      && forall q :: q in w.sent && q.draft.roomId == d.roomId ==> q.draft.clientSeq < d.clientSeq
    case Awaiting(q, retrying) =>
      w.client.inFlight && q in w.sent && w.client.pending == Some(q) && w.client.uncertain == retrying
  }

  /** The coordinator's own bookkeeping: an unknown outcome always has its request, and only then. */
  ghost predicate Bookkeeping(w: World) {
    && StageFits(w) && RequestsDistinct(w.sent)
    && (w.client.uncertain ==> w.client.pending.Some?)
    && (w.client.pending.Some? ==> w.client.pending.value in w.sent && (w.stage.Awaiting? || w.client.uncertain))
    && (forall q :: q in w.sent ==> q.draft.clientSeq <= Last(w.client.lastSequence, q.draft.roomId))
  }

  /** The ledger knows a request only by its own command. */
  ghost predicate KnownAs(setting: Setting, ledger: map<LedgerKey, StoredCommand>, q: Request) {
    KeyOfRequest(setting, q) in ledger ==>
      var stored := ledger[KeyOfRequest(setting, q)].command;
      && SameCommand(stored, CommandFor(q, 0, 0).(payloadDigest := setting.digest(NameOf(q.draft.op), q.draft.op)))
      && IdentityValid(setting.actor, CommandFor(q, 0, 0), q.draft.op)
  }

  /** The request can never be carried out: it was rejected for good, or no delivery of it is valid. */
  ghost predicate Refused(setting: Setting, ledger: map<LedgerKey, StoredCommand>, q: Request) {
    var key := KeyOfRequest(setting, q);
    if key in ledger then ledger[key].result.Some? && !ledger[key].result.value.accepted
    else !IdentityValid(setting.actor, CommandFor(q, 0, 0), q.draft.op)
  }

  /** The reply says of the request what the ledger says, now and later. */
  ghost predicate Truthful(setting: Setting, ledger: map<LedgerKey, StoredCommand>, q: Request, r: CommandResult) {
    && r.commandId == q.requestId && r.aggregateId == q.draft.roomId && (r.accepted <==> r.failure.None?)
    && if r.accepted then
         && AcceptedIn(ledger, KeyOfRequest(setting, q))
         && r.aggregateVersion == ledger[KeyOfRequest(setting, q)].result.value.aggregateVersion
       else Refused(setting, ledger, q)
  }

  ghost predicate AdoptedRightly(setting: Setting, ledger: map<LedgerKey, StoredCommand>, q: Request, view: RoomView) {
    && AcceptedIn(ledger, KeyOfRequest(setting, q))
    && view == RoomView(q.draft.roomId, ledger[KeyOfRequest(setting, q)].result.value.aggregateVersion)
  }

  /** Every message and every outcome the client has seen agrees with the ledger. */
  ghost predicate MessagesTrue(setting: Setting, w: World) {
    && (forall q :: q in w.sent ==> KnownAs(setting, w.db.ledger, q))
    && (forall q, r :: (q, r) in w.replies ==> q in w.sent && Truthful(setting, w.db.ledger, q, r))
    && (forall q, view :: (q, view) in w.adopted ==> q in w.sent && AdoptedRightly(setting, w.db.ledger, q, view))
    && (forall q :: q in w.refused ==> q in w.sent && Refused(setting, w.db.ledger, q))
  }

  ghost predicate Honest(setting: Setting, w: World) {
    Consistent(w.db) && MessagesTrue(setting, w)
  }

  // ------------------------------------------------------------------ client moves keep the bookkeeping

  predicate ClientMove(m: Move) {
    m.CallPerform? || m.RaiseByJoin? || m.CallRetry? || m.RestoreFromServer? || m.ForgetStale?
  }

  lemma CallsKeepBookkeeping(setting: Setting, w: World, m: Move)
    requires ClientMove(m) && Bookkeeping(w)
    ensures Bookkeeping(Next(setting, w, m))
  {
    match m
    case CallPerform(op, roomId, expectedVersion) =>
    case RaiseByJoin(roomId, last) =>
    case CallRetry =>
    case RestoreFromServer(roomId, version, last) =>
    case ForgetStale(roomId) =>
  }

  lemma NamingKeepsBookkeeping(setting: Setting, w: World, id: Option<Text>)
    requires Bookkeeping(w) && Possible(setting, w, IdentityArrives(id))
    ensures Bookkeeping(Next(setting, w, IdentityArrives(id)))
  {
  }

  lemma ReplyKeepsBookkeeping(w: World, reply: WireReply)
    requires Bookkeeping(w) && w.stage.Awaiting?
    ensures Bookkeeping(Received(w, reply))
  {
  }

  lemma MovesKeepBookkeeping(setting: Setting, w: World, m: Move)
    requires Bookkeeping(w) && Possible(setting, w, m)
    ensures Bookkeeping(Next(setting, w, m))
  {
    if ClientMove(m) {
      CallsKeepBookkeeping(setting, w, m);
    } else {
      match m
      case IdentityArrives(id) => NamingKeepsBookkeeping(setting, w, id);
      case ReplyArrives(q, result) => ReplyKeepsBookkeeping(w, WireOf(q, result, FAILURE_CODE));
      case GarbageArrives(reply) => ReplyKeepsBookkeeping(w, reply);
      case TransportFails =>
      case CommandArrives(_, _, _, _) =>
      case OtherCommand(_) =>
    }
  }

  // ------------------------------------------------------------------ service moves keep the replies true

  /** What a move of the service may add to the ledger, seen from the requests sent: their own commands. */
  ghost predicate Undisturbed(setting: Setting, sent: set<Request>, before: map<LedgerKey, StoredCommand>,
                              after: map<LedgerKey, StoredCommand>) {
    && LedgerGrows(before, after)
    && forall q :: q in sent && KeyOfRequest(setting, q) !in before ==> KnownAs(setting, after, q)
  }

  lemma LaterRefused(setting: Setting, sent: set<Request>, before: map<LedgerKey, StoredCommand>, after: map<LedgerKey,
                     StoredCommand>, q: Request)
    requires Undisturbed(setting, sent, before, after) && q in sent
    ensures KnownAs(setting, before, q) ==> KnownAs(setting, after, q)
    ensures Refused(setting, before, q) ==> Refused(setting, after, q)
    ensures forall r :: Truthful(setting, before, q, r) ==> Truthful(setting, after, q, r)
    ensures forall view :: AdoptedRightly(setting, before, q, view) ==> AdoptedRightly(setting, after, q, view)
  {
  }

  lemma ServiceKeepsTrue(setting: Setting, w: World, w': World)
    requires MessagesTrue(setting, w) && Undisturbed(setting, w.sent, w.db.ledger, w'.db.ledger)
    requires w'.sent == w.sent && w'.adopted == w.adopted && w'.refused == w.refused
    requires forall q, r :: (q, r) in w'.replies && (q, r) !in w.replies ==>
             q in w.sent && Truthful(setting, w'.db.ledger, q, r)
    ensures MessagesTrue(setting, w')
  {
    forall q | q in w.sent ensures KnownAs(setting, w'.db.ledger, q) {
      LaterRefused(setting, w.sent, w.db.ledger, w'.db.ledger, q);
    }
    forall q, r | (q, r) in w'.replies ensures q in w'.sent && Truthful(setting, w'.db.ledger, q, r) {
      if (q, r) in w.replies {
        LaterRefused(setting, w.sent, w.db.ledger, w'.db.ledger, q);
      }
    }
    forall q, view | (q, view) in w'.adopted ensures q in w'.sent && AdoptedRightly(setting, w'.db.ledger, q, view) {
      LaterRefused(setting, w.sent, w.db.ledger, w'.db.ledger, q);
    }
    forall q | q in w'.refused ensures q in w'.sent && Refused(setting, w'.db.ledger, q) {
      LaterRefused(setting, w.sent, w.db.ledger, w'.db.ledger, q);
    }
  }

  /** A delivery adds at most its own key, for its own command, and only when that is valid. */
  ghost predicate AddsOwnKey(before: map<LedgerKey, StoredCommand>, after: map<LedgerKey, StoredCommand>,
                             key: LedgerKey, command: Command) {
    forall k :: k in after && k !in before ==> k == key && after[k].command == command
  }

  lemma OutcomeAddsOwnKey(o: Outcome, db: Database, actor: Text, command: Command, env: Environment,
                          step: (Database, Result<CommandResult>))
    requires OutcomeOf(o, db, actor, command, env, step)
    ensures AddsOwnKey(db.ledger, step.0.ledger, KeyOf(actor, command), command)
  {
    match o
    case Unchanged =>
    case RejectedNow(result, sequences) =>
    case AcceptedNow(e, tx, events) =>
      AcceptanceBooks(db, actor, command, tx, events, step.1.value.aggregateVersion, step.0);
  }

  lemma StepAddsOwnKey(db: Database, d: Delivery)
    requires Consistent(db)
    ensures AddsOwnKey(db.ledger, After(db, d).ledger, KeyFor(d), Bound(d.command, d.op, d.env))
    ensures LedgerGrows(db.ledger, After(db, d).ledger)
  {
    var o := StepOutcome(db, d.actor, d.command, d.op, d.env);
    OutcomeAddsOwnKey(o, db, d.actor, Bound(d.command, d.op, d.env), d.env, Step(db, d.actor, d.command, d.op, d.env));
    StepFollows(db, d);
  }

  lemma InvalidHasNoEffect(db: Database, d: Delivery)
    requires !IdentityValid(d.actor, Bound(d.command, d.op, d.env), d.op)
    ensures After(db, d) == db && (Reply(db, d).Ok?
                                   ==> Reply(db, d).value == Rejected(Bound(d.command, d.op, d.env), CodeInvalidCommand,
                                                                      0))
  {
  }

  lemma OthersUndisturbed(setting: Setting, w: World, d: Delivery)
    requires Honest(setting, w) && Possible(setting, w, OtherCommand(d))
    ensures Undisturbed(setting, w.sent, w.db.ledger, After(w.db, d).ledger)
  {
    StepAddsOwnKey(w.db, d);
  }

  lemma OwnUndisturbed(setting: Setting, w: World, q: Request, issued: int, expires: int, env: Environment)
    requires Honest(setting, w) && RequestsDistinct(w.sent)
             && Possible(setting, w, CommandArrives(q, issued, expires, env))
    ensures Undisturbed(setting, w.sent, w.db.ledger, After(w.db, DeliveryFor(setting, q, issued, expires, env)).ledger)
  {
    var d := DeliveryFor(setting, q, issued, expires, env);
    StepAddsOwnKey(w.db, d);
    if !IdentityValid(d.actor, Bound(d.command, d.op, d.env), d.op) {
      InvalidHasNoEffect(w.db, d);
    }
    forall p | p in w.sent && KeyOfRequest(setting, p) !in w.db.ledger
      ensures KnownAs(setting, After(w.db, d).ledger, p) {
      if KeyOfRequest(setting, p) in After(w.db, d).ledger {
        assert p == q;
      }
    }
  }

  /** A new command's reply is what the ledger records. */
  lemma AttemptRecords(db: Database, actor: Text, command: Command, env: Environment, handled: Handled)
    requires KeyOf(actor, command) !in db.ledger && KeyOf(actor, command) in handled.db.ledger
    ensures var step := Attempt(db, actor, command, env, handled);
            step.1.Ok? ==>
                KeyOf(actor, command) in step.0.ledger
                && step.0.ledger[KeyOf(actor, command)].result == Some(step.1.value)
  {
  }

  lemma NewReplyIsRecorded(db: Database, d: Delivery)
    requires KeyFor(d) !in db.ledger && IdentityValid(d.actor, Bound(d.command, d.op, d.env), d.op) && Reply(db, d).Ok?
    ensures KeyFor(d) in After(db, d).ledger && After(db, d).ledger[KeyFor(d)].result == Some(Reply(db, d).value)
  {
    var command := Bound(d.command, d.op, d.env);
    AttemptRecords(db, d.actor, command, d.env, Handle(Claim(db, KeyFor(d), command).0, d.actor, command, d.op, d.env));
  }

  lemma RepliesAreTruthful(setting: Setting, w: World, q: Request, issued: int, expires: int, env: Environment)
    requires Honest(setting, w) && Possible(setting, w, CommandArrives(q, issued, expires, env))
    requires Reply(w.db, DeliveryFor(setting, q, issued, expires, env)).Ok?
    ensures var d := DeliveryFor(setting, q, issued, expires, env);
            Truthful(setting, After(w.db, d).ledger, q, Reply(w.db, d).value)
  {
    var d := DeliveryFor(setting, q, issued, expires, env);
    var key := KeyFor(d);
    if key in w.db.ledger {
      ReplayHasNoEffect(w.db, d);
      assert EntryFine(key, w.db.ledger[key]);
      KnownReply(setting, w, q, d);
    } else if IdentityValid(d.actor, Bound(d.command, d.op, d.env), d.op) {
      NewReplyIsRecorded(w.db, d);
      StepKeepsConsistent(w.db, d.actor, d.command, d.op, d.env);
      assert EntryFine(key, After(w.db, d).ledger[key]);
    } else {
      InvalidHasNoEffect(w.db, d);
    }
  }

  /** A request whose command is in the ledger gets the stored result. */
  lemma KnownReply(setting: Setting, w: World, q: Request, d: Delivery)
    requires KeyFor(d) in w.db.ledger && w.db.ledger[KeyFor(d)].result.Some?
    requires d.actor == setting.actor && d.op == q.draft.op
             && d.command == CommandFor(q, d.command.issuedAt, d.command.expiresAt)
    requires d.env.payloadDigest == setting.digest && KnownAs(setting, w.db.ledger, q) && Reply(w.db, d).Ok?
    ensures Reply(w.db, d).value == w.db.ledger[KeyFor(d)].result.value.(duplicate := true)
  {
  }

  // ------------------------------------------------------------------ every move keeps everything

  lemma ReceivingKeepsTrue(setting: Setting, w: World, q: Request, result: CommandResult)
    requires MessagesTrue(setting, w) && Bookkeeping(w) && w.stage.Awaiting? && (q, result) in w.replies
    ensures MessagesTrue(setting, Received(w, WireOf(q, result, FAILURE_CODE)))
  {
    if WellFormed(w.stage.request, WireOf(q, result, FAILURE_CODE)) {
      assert q == w.stage.request;
      assert Truthful(setting, w.db.ledger, q, result);
    }
  }

  lemma ServiceMovesKeepHonest(setting: Setting, w: World, m: Move)
    requires Honest(setting, w) && Bookkeeping(w) && Possible(setting, w, m) && (m.CommandArrives? || m.OtherCommand?)
    ensures Honest(setting, Next(setting, w, m))
  {
    match m
    case CommandArrives(q, issued, expires, env) =>
      var d := DeliveryFor(setting, q, issued, expires, env);
      StepKeepsConsistent(w.db, d.actor, d.command, d.op, d.env);
      OwnUndisturbed(setting, w, q, issued, expires, env);
      if Reply(w.db, d).Ok? {
        RepliesAreTruthful(setting, w, q, issued, expires, env);
      }
      ServiceKeepsTrue(setting, w, Next(setting, w, m));
    case OtherCommand(d) =>
      StepKeepsConsistent(w.db, d.actor, d.command, d.op, d.env);
      OthersUndisturbed(setting, w, d);
      ServiceKeepsTrue(setting, w, Next(setting, w, m));
  }

  lemma MovesKeepHonest(setting: Setting, w: World, m: Move)
    requires Honest(setting, w) && Bookkeeping(w) && Possible(setting, w, m)
    ensures Honest(setting, Next(setting, w, m))
  {
    match m
    case ReplyArrives(q, result) => ReceivingKeepsTrue(setting, w, q, result);
    case CommandArrives(_, _, _, _) => ServiceMovesKeepHonest(setting, w, m);
    case OtherCommand(_) => ServiceMovesKeepHonest(setting, w, m);
    case _ =>
  }

  /** A run: every move is possible where it is made. */
  ghost predicate Runs(setting: Setting, w: World, moves: seq<Move>) {
    forall i :: 0 <= i < |moves| ==> Possible(setting, WorldAfter(setting, w, moves[..i]), moves[i])
  }

  function WorldAfter(setting: Setting, w: World, moves: seq<Move>): World {
    if moves == [] then w else Next(setting, WorldAfter(setting, w, moves[..|moves| - 1]), moves[|moves| - 1])
  }

  lemma {:induction false} RunsKeepAll(setting: Setting, w: World, moves: seq<Move>)
    requires Honest(setting, w) && Bookkeeping(w) && Runs(setting, w, moves)
    ensures Honest(setting, WorldAfter(setting, w, moves)) && Bookkeeping(WorldAfter(setting, w, moves))
  {
    if moves != [] {
      var fewer := moves[..|moves| - 1];
      assert forall i :: 0 <= i < |fewer| ==> fewer[..i] == moves[..i];
      RunsKeepAll(setting, w, fewer);
      MovesKeepHonest(setting, WorldAfter(setting, w, fewer), moves[|moves| - 1]);
      MovesKeepBookkeeping(setting, WorldAfter(setting, w, fewer), moves[|moves| - 1]);
    }
  }

  function Beginning(db: Database): World {
    World(NEW_CLIENT, Idle, {}, {}, db, {}, {})
  }

  /** However the network loses, delays and repeats messages, and whatever everybody else does meanwhile:
      one action of the client changes at most one room, once; an action the client saw rejected changed
      nothing and never will; and a version it adopted is the one the ledger stored for that request, one
      above the version the action expected, for an action that did happen. */
  lemma {:induction false} ActionsHappenAtMostOnce(setting: Setting, db: Database, moves: seq<Move>, q: Request)
    requires Consistent(db) && Runs(setting, Beginning(db), moves)
    requires q in WorldAfter(setting, Beginning(db), moves).sent
    ensures var w := WorldAfter(setting, Beginning(db), moves);
            var events := CausedBy(w.db.outbox, KeyOfRequest(setting, q));
            && RoomChanges(events) <= 1
            && (q in w.refused ==> events == [])
            && (forall view :: (q, view) in w.adopted ==>
                  && RoomChanges(events) == 1 && KeyOfRequest(setting, q) in w.db.ledger
                  && w.db.ledger[KeyOfRequest(setting, q)].result.Some?
                  && view.version == w.db.ledger[KeyOfRequest(setting, q)].result.value.aggregateVersion
                  && view == RoomView(q.draft.roomId, q.draft.expectedVersion + 1))
  {
    var w := WorldAfter(setting, Beginning(db), moves);
    RunsKeepAll(setting, Beginning(db), moves);
    OneMutationPerCommand(w.db, KeyOfRequest(setting, q));
    if KeyOfRequest(setting, q) in w.db.ledger {
      LedgerEntry(w.db, KeyOfRequest(setting, q));
    }
    assert KnownAs(setting, w.db.ledger, q);
    forall view | (q, view) in w.adopted
      ensures view == RoomView(q.draft.roomId, q.draft.expectedVersion + 1)
    {
      assert AdoptedRightly(setting, w.db.ledger, q, view);
    }
  }

  lemma LedgerEntry(db: Database, key: LedgerKey)
    requires Completed(db.ledger) && key in db.ledger
    ensures db.ledger[key].result.Some? && ResultFine(db.ledger[key].command, db.ledger[key].result.value)
  {
    assert EntryFine(key, db.ledger[key]);
  }

  /** No sequence is used for two actions on a room, and none is handed out again. */
  lemma {:induction false} SequencesAreNeverReused(setting: Setting, db: Database, moves: seq<Move>, p: Request,
                                                   q: Request)
    requires Consistent(db) && Runs(setting, Beginning(db), moves)
    requires p in WorldAfter(setting, Beginning(db), moves).sent && q in WorldAfter(setting, Beginning(db), moves).sent
    ensures p != q ==>
            p.requestId != q.requestId
            && (p.draft.roomId == q.draft.roomId ==> p.draft.clientSeq != q.draft.clientSeq)
    ensures p.draft.clientSeq <= Last(WorldAfter(setting, Beginning(db), moves).client.lastSequence, p.draft.roomId)
  {
    RunsKeepAll(setting, Beginning(db), moves);
  }
}
