/** Errors, events and results shared by the two aggregates and the application layer. */
module Domain {
  import opened Text

  datatype Error =
    // domain
    | InvalidArgument | VersionConflict(expected: nat, actual: nat) | NoStateChange | Forbidden
    | RoomIsClosed | RoomFull | AlreadySeated | NotSeated | OwnerMustRemain
    | HandIsActive | HandNotActive | RoomNotReady
    | WrongPhase | DuplicateContribution | CommitmentMismatch | BeaconMismatch | HandIsTerminal
    // application
    | NotFound | AlreadyExists | OptimisticConflict | InvalidCommand | RevealInvalid
    | ProtectionFailed | LiveProgressed | Infrastructure

  datatype Result<+T> = Ok(value: T) | Err(error: Error) {
    predicate IsFailure() {
      Err?
    }
    function PropagateFailure<U>(): Result<U>
      requires Err?
    {
      Err(error)
    }
    function Extract(): T
      requires Ok?
    {
      value
    }
  }

  datatype AggregateType = AggregateRoom | AggregateHand

  datatype EventName =
    | RoomCreated | PlayerJoined | PlayerLeft | ReadyChanged | HandStarted | HandFinished | RoomClosed
    | HandCreated | CommitAccepted | RevealAccepted | BeaconLocked | PhaseChanged | HandTerminated

  /** A domain event without its payload. */
  datatype Event = Event(aggregate: AggregateType, id: Text, name: EventName, version: nat)

  /** What a transition gives: the new state and its events, or an error and no new state. */
  datatype Transition<+S> = Done(state: S, events: seq<Event>) | Refused(error: Error)

  /** The events are those of one aggregate and carry the versions from+1, from+2, ... in order. */
  ghost predicate Numbered(events: seq<Event>, aggregate: AggregateType, id: Text, from: nat) {
    forall i :: 0 <= i < |events| ==>
      events[i].aggregate == aggregate && events[i].id == id && events[i].version == from + 1 + i
  }

  /** A method did what the transition says: its events and its state, or its error and no change. */
  predicate Performs<S(==)>(before: S, t: Transition<S>, after: S, r: Result<seq<Event>>) {
    match t
    case Done(s, events) => after == s && r == Ok(events)
    case Refused(e) => after == before && r == Err(e)
  }

  function Succeeded<S>(t: Transition<S>, before: S): S {
    if t.Done? then t.state else before
  }
}
