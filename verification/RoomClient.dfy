/** The client's coordinator of durable room commands: one outstanding command, and an unknown outcome is
    kept and resent exactly. Each async method is split where it awaits. */
module RoomClient {
  import opened Bytes
  import opened Text
  import opened Store
  import opened Handlers

  const MAX_SAFE := 0x1F_FFFF_FFFF_FFFF

  type RoomOperation = op: Operation | ConcernsRoom(op) witness CreateRoom

  datatype RoomView = RoomView(roomId: Text, version: nat)

  datatype Draft = Draft(op: RoomOperation, roomId: Text, clientSeq: nat, expectedVersion: nat)

  datatype Request = Request(requestId: Text, draft: Draft)

  datatype Durable = Durable(framed: bool, aggregateId: Text, commandId: Text, aggregateVersion: Option<int>,
                             accepted: Option<bool>, failure: Option<Text>, currentVersion: Option<int>)

  /** A response as parsed; `framed` says that its version marker is the expected one, None that a field is
      absent or of another type. */
  datatype WireReply = WireReply(framed: bool, requestId: Text, kind: CommandName, durable: Option<Durable>)

  datatype Reason =
    | InvalidInput | CommandOutstanding | OutcomeUnknown | AlreadyManaging | IdentityMismatch | SequenceExhausted
    | NoIdentity | TransportFailed | NothingToRetry | OtherRoomUnresolved | NotConfirmed
    | RejectedByServer(code: Text, currentVersion: Option<int>)

  datatype Promised<+T> = Returned(value: T) | Threw(reason: Reason)

  datatype Client = Client(room: Option<RoomView>, lastSequence: map<Text, nat>, inFlight: bool, uncertain: bool,
                           pending: Option<Request>)

  const NEW_CLIENT := Client(None, map[], false, false, None)

  predicate ValidID(s: Text) {
    !Blank(s) && s == Trim(s) && |s| <= 128
  }

  predicate SafeInteger(n: int) {
    -MAX_SAFE <= n <= MAX_SAFE
  }

  function Last(sequences: map<Text, nat>, roomId: Text): nat {
    if roomId in sequences then sequences[roomId] else 0
  }

  function Max(a: nat, b: nat): nat {
    if a < b then b else a
  }

  function Raised(sequences: map<Text, nat>, roomId: Text, to: nat): map<Text, nat> {
    sequences[roomId := Max(Last(sequences, roomId), to)]
  }

  // ------------------------------------------------------------------ the methods as functions

  /** perform, up to the request for a new identifier. */
  function Begin(c: Client, op: RoomOperation, roomId: Text, expectedVersion: int): (Client, Promised<Draft>) {
    if !ValidID(roomId) || !SafeInteger(expectedVersion) || expectedVersion < (if op.CreateRoom? then 0 else 1)
       || (op.CreateRoom? && expectedVersion != 0) then (c, Threw(InvalidInput))
    else if c.inFlight then (c, Threw(CommandOutstanding))
    else if c.uncertain then (c, Threw(OutcomeUnknown))
    else if op.CreateRoom? && c.room.Some? then (c, Threw(AlreadyManaging))
    else if !op.CreateRoom? && c.room.Some? && c.room.value.roomId != roomId then (c, Threw(IdentityMismatch))
    else
      var sequence := Last(c.lastSequence, roomId) + 1;
      if !SafeInteger(sequence) then (c, Threw(SequenceExhausted))
      else (c.(lastSequence := c.lastSequence[roomId := sequence], inFlight := true),
            Returned(Draft(op, roomId, sequence, expectedVersion)))
  }

  /** perform, from the identifier to the sending of the command. */
  function Name(c: Client, draft: Draft, requestId: Option<Text>): (Client, Promised<Request>) {
    if requestId.None? || !ValidID(requestId.value) then (c.(inFlight := false), Threw(NoIdentity))
    else
      var request := Request(requestId.value, draft);
      (c.(pending := Some(request)), Returned(request))
  }

  /** The command's promise rejects: in perform that makes the outcome unknown, in a retry it still is. */
  function Lose(c: Client, retrying: bool): Client {
    c.(inFlight := false, uncertain := if retrying then c.uncertain else true)
  }

  predicate WellFormed(request: Request, reply: WireReply) {
    && reply.framed && reply.requestId == request.requestId && reply.kind == NameOf(request.draft.op)
    && reply.durable.Some?
    && var d := reply.durable.value;
      && d.framed && d.aggregateId == request.draft.roomId && d.commandId == request.requestId
      && d.aggregateVersion.Some? && SafeInteger(d.aggregateVersion.value) && d.aggregateVersion.value >= 0
      && d.accepted.Some?
  }

  /** acceptResult, and the end of perform or retryUnknown. */
  function Accept(c: Client, request: Request, reply: WireReply): (Client, Promised<RoomView>) {
    var unknown := c.(uncertain := true, inFlight := false);
    if !WellFormed(request, reply) then (unknown, Threw(OutcomeUnknown))
    else
      var d := reply.durable.value;
      var settled := c.(uncertain := false, pending := None, inFlight := false);
      if !d.accepted.value then
        if d.failure.None? || Blank(d.failure.value) then (unknown, Threw(OutcomeUnknown))
        else (settled, Threw(RejectedByServer(d.failure.value, d.currentVersion)))
      else if d.aggregateVersion.value <= request.draft.expectedVersion then (unknown, Threw(OutcomeUnknown))
      else
        var view := RoomView(request.draft.roomId, d.aggregateVersion.value);
        (settled.(room := if request.draft.op.LeaveRoom? then None else Some(view)), Returned(view))
  }

  /** retryUnknown, up to the resending of the pending command. */
  function BeginRetry(c: Client): (Client, Promised<Request>) {
    if !c.uncertain || c.pending.None? || c.inFlight then (c, Threw(NothingToRetry))
    else (c.(inFlight := true), Returned(c.pending.value))
  }

  function Restore(c: Client, roomId: Text, version: int, lastClientSequence: int): (Client, Promised<()>) {
    if !ValidID(roomId) || !SafeInteger(version) || version < 1 || !SafeInteger(lastClientSequence)
        || lastClientSequence < 0
    then (c, Threw(InvalidInput))
    else if c.inFlight then (c, Threw(CommandOutstanding))
    else if c.uncertain && (c.pending.None? || c.pending.value.draft.roomId != roomId)
        then (c, Threw(OtherRoomUnresolved))
    else (Client(Some(RoomView(roomId, version)), Raised(c.lastSequence, roomId, lastClientSequence), c.inFlight, false,
                 None), Returned(()))
  }

  function Forget(c: Client, roomId: Text): (Client, Promised<()>) {
    if c.inFlight || c.uncertain || c.pending.Some? then (c, Threw(OutcomeUnknown))
    else (c.(room := if c.room.Some? && c.room.value.roomId == roomId then None else c.room), Returned(()))
  }

  /** What join does before perform. */
  function RaiseSequence(c: Client, roomId: Text, lastClientSequence: int): (Client, Promised<()>) {
    if !SafeInteger(lastClientSequence) || lastClientSequence < 0 then (c, Threw(InvalidInput))
    else (c.(lastSequence := Raised(c.lastSequence, roomId, lastClientSequence)), Returned(()))
  }

  // ------------------------------------------------------------------ the coordinator

  class RoomCoordinator {
    var room: Option<RoomView>
    var lastSequence: map<Text, nat>
    var inFlight: bool
    var uncertainOutcome: bool
    var pendingCommand: Option<Request>

    function State(): Client
      reads this
    {
      Client(room, lastSequence, inFlight, uncertainOutcome, pendingCommand)
    }

    constructor ()
      ensures State() == NEW_CLIENT
    {
      room, lastSequence, inFlight, uncertainOutcome, pendingCommand := None, map[], false, false, None;
    }

    method BeginPerform(op: RoomOperation, roomId: Text, expectedVersion: int) returns (r: Promised<Draft>)
      modifies this
      ensures (State(), r) == Begin(old(State()), op, roomId, expectedVersion)
    {
      if !ValidID(roomId) || !SafeInteger(expectedVersion) || expectedVersion < (if op.CreateRoom? then 0 else 1)
         || (op.CreateRoom? && expectedVersion != 0) {
        return Threw(InvalidInput);
      }
      if inFlight {
        return Threw(CommandOutstanding);
      }
      if uncertainOutcome {
        return Threw(OutcomeUnknown);
      }
      if op.CreateRoom? && room.Some? {
        return Threw(AlreadyManaging);
      }
      if !op.CreateRoom? && room.Some? && room.value.roomId != roomId {
        return Threw(IdentityMismatch);
      }
      inFlight := true;
      var sequence := Last(lastSequence, roomId) + 1;
      if !SafeInteger(sequence) {
        inFlight := false;
        return Threw(SequenceExhausted);
      }
      lastSequence := lastSequence[roomId := sequence];
      return Returned(Draft(op, roomId, sequence, expectedVersion));
    }

    method SendNamed(draft: Draft, requestId: Option<Text>) returns (r: Promised<Request>)
      modifies this
      ensures (State(), r) == Name(old(State()), draft, requestId)
    {
      if requestId.None? || !ValidID(requestId.value) {
        inFlight := false;
        return Threw(NoIdentity);
      }
      var request := Request(requestId.value, draft);
      pendingCommand := Some(request);
      return Returned(request);
    }

    method RetryUnknown() returns (r: Promised<Request>)
      modifies this
      ensures (State(), r) == BeginRetry(old(State()))
    {
      if !uncertainOutcome || pendingCommand.None? || inFlight {
        return Threw(NothingToRetry);
      }
      inFlight := true;
      return Returned(pendingCommand.value);
    }

    method TransportFailed(retrying: bool)
      modifies this
      ensures State() == Lose(old(State()), retrying)
    {
      if !retrying {
        uncertainOutcome := true;
      }
      inFlight := false;
    }

    method AcceptResult(request: Request, reply: WireReply) returns (r: Promised<RoomView>)
      modifies this
      ensures (State(), r) == Accept(old(State()), request, reply)
    {
      inFlight := false;
      if !WellFormed(request, reply) {
        uncertainOutcome := true;
        return Threw(OutcomeUnknown);
      }
      var d := reply.durable.value;
      if !d.accepted.value {
        if d.failure.None? || Blank(d.failure.value) {
          uncertainOutcome := true;
          return Threw(OutcomeUnknown);
        }
        uncertainOutcome := false;
        pendingCommand := None;
        return Threw(RejectedByServer(d.failure.value, d.currentVersion));
      }
      if d.aggregateVersion.value <= request.draft.expectedVersion {
        uncertainOutcome := true;
        return Threw(OutcomeUnknown);
      }
      var view := RoomView(request.draft.roomId, d.aggregateVersion.value);
      room := if request.draft.op.LeaveRoom? then None else Some(view);
      uncertainOutcome := false;
      pendingCommand := None;
      return Returned(view);
    }

    method RestoreTrustedRoom(roomId: Text, version: int, lastClientSequence: int) returns (r: Promised<()>)
      modifies this
      ensures (State(), r) == Restore(old(State()), roomId, version, lastClientSequence)
    {
      if !ValidID(roomId) || !SafeInteger(version) || version < 1 || !SafeInteger(lastClientSequence)
          || lastClientSequence < 0 {
        return Threw(InvalidInput);
      }
      if inFlight {
        return Threw(CommandOutstanding);
      }
      if uncertainOutcome && (pendingCommand.None? || pendingCommand.value.draft.roomId != roomId) {
        return Threw(OtherRoomUnresolved);
      }
      room := Some(RoomView(roomId, version));
      lastSequence := lastSequence[roomId := Max(Last(lastSequence, roomId), lastClientSequence)];
      uncertainOutcome := false;
      pendingCommand := None;
      return Returned(());
    }

    method ForgetTrustedRoom(roomId: Text) returns (r: Promised<()>)
      modifies this
      ensures (State(), r) == Forget(old(State()), roomId)
    {
      if inFlight || uncertainOutcome || pendingCommand.Some? {
        return Threw(OutcomeUnknown);
      }
      if room.Some? && room.value.roomId == roomId {
        room := None;
      }
      return Returned(());
    }

    method JoinRoom(roomId: Text, expectedVersion: int, lastClientSequence: int) returns (r: Promised<Draft>)
      modifies this
      ensures var raised := RaiseSequence(old(State()), roomId, lastClientSequence);
              (State(), r) == if raised.1.Threw? then (old(State()), Threw(raised.1.reason))
                              else Begin(raised.0, Operation.JoinRoom, roomId, expectedVersion)
    {
      if !SafeInteger(lastClientSequence) || lastClientSequence < 0 {
        return Threw(InvalidInput);
      }
      lastSequence := lastSequence[roomId := Max(Last(lastSequence, roomId), lastClientSequence)];
      r := BeginPerform(Operation.JoinRoom, roomId, expectedVersion);
    }

    /** ready, startHand and leave. */
    method WithRoom(op: RoomOperation) returns (r: Promised<Draft>)
      modifies this
      ensures (State(), r) == var c := old(State());
                if op.StartRoomHand? && !ValidID(op.handId) then (c, Threw(InvalidInput))
                else if c.room.None? then (c, Threw(NotConfirmed))
                    else Begin(c, op, c.room.value.roomId, c.room.value.version)
    {
      if op.StartRoomHand? && !ValidID(op.handId) {
        return Threw(InvalidInput);
      }
      if room.None? {
        return Threw(NotConfirmed);
      }
      r := BeginPerform(op, room.value.roomId, room.value.version);
    }
  }
}
