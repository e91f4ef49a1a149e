/** What the room's transitions mean for its members, and when a room refuses. */
module RoomMeaning {
  import opened Text
  import opened Domain
  import opened RoomModel

  predicate SitsAt(s: RoomState, account: Text, i: nat) {
    i < 3 && s.seats[i].account == account
  }

  predicate Sits(s: RoomState, account: Text) {
    SitsAt(s, account, 0) || SitsAt(s, account, 1) || SitsAt(s, account, 2)
  }

  predicate OthersStay(s: RoomState, s': RoomState, i: nat) {
    forall j :: 0 <= j < 3 && j != i ==> s'.seats[j] == s.seats[j]
  }

  /** One version on, and nothing but seats and status may differ. */
  predicate SameRoom(s: RoomState, s': RoomState) {
    && s'.id == s.id && s'.owner == s.owner && s'.activeHand == s.activeHand && s'.lastHand == s.lastHand
    && s'.version == s.version + 1
  }

  predicate EveryoneReady(s: RoomState) {
    forall i :: 0 <= i < 3 ==> s.seats[i].account != [] && s.seats[i].ready
  }

  // ------------------------------------------------------------------ accepted actions

  /** A new room has its owner in the first seat, not ready, and nobody else. */
  lemma CreatingSeatsOwner(id: Text, owner: Text)
    requires NewRoom(id, owner).Done?
    ensures var t := NewRoom(id, owner); var s := t.state;
            && s.id == id && s.owner == owner && s.status == WaitingPlayers && s.version == 1
            && s.seats == [RoomSeat(owner, false), RoomSeat([], false), RoomSeat([], false)]
            && s.activeHand == [] && s.lastHand == [] && t.events == [Event(AggregateRoom, id, RoomCreated, 1)]
  {
  }

  /** Who joins sits afterwards, not ready, in the first seat that was empty; nobody else is moved. */
  lemma JoiningTakesSeat(s: RoomState, actor: Text, expected: nat)
    requires Join(s, actor, expected).Done? && s.activeHand == []
    ensures var t := Join(s, actor, expected); var s' := t.state;
            && s.version == expected && actor != [] && !Sits(s, actor) && SameRoom(s, s')
            && (exists i :: 0 <= i < 3 && SitsAt(s, [], i) && (forall j :: 0 <= j < i ==> !SitsAt(s, [], j))
                            && s'.seats[i] == RoomSeat(actor, false) && OthersStay(s, s', i))
            && s'.status == WaitingPlayers && t.events == [Event(AggregateRoom, s.id, PlayerJoined, s'.version)]
  {
    BlankIsEmpty();
    assert SitsAt(s, [], SeatIndex(s.seats, []));
  }

  /** Who leaves is gone, and nobody else is moved. */
  lemma LeavingVacatesSeat(s: RoomState, actor: Text, expected: nat)
    requires Invariant(s) && actor != [] && Leave(s, actor, expected).Done?
    ensures var s' := Leave(s, actor, expected).state;
            && s.version == expected && Sits(s, actor) && !Sits(s', actor) && SameRoom(s, s')
            && (exists i :: 0 <= i < 3 && SitsAt(s, actor, i) && s'.seats[i] == RoomSeat([], false)
                            && OthersStay(s, s', i))
  {
    var i, s' := SeatIndex(s.seats, actor), Leave(s, actor, expected).state;
    assert SitsAt(s, actor, i) && s'.seats == s.seats[i := RoomSeat([], false)];
    OnlySeat(s, actor);
    assert OthersStay(s, s', i);
  }

  /** The owner leaves last, and closes the room; after anybody else it waits for players. */
  lemma OwnerLeavesLast(s: RoomState, actor: Text, expected: nat)
    requires Invariant(s) && actor != [] && Leave(s, actor, expected).Done?
    ensures var t := Leave(s, actor, expected); var s' := t.state;
            if actor == s.owner then
              && s'.status == Closed && SitsAt(s', [], 0) && SitsAt(s', [], 1) && SitsAt(s', [], 2)
              && t.events == [Event(AggregateRoom, s.id, RoomClosed, s'.version)]
            else s'.status == WaitingPlayers && t.events == [Event(AggregateRoom, s.id, PlayerLeft, s'.version)]
  {
    if actor == s.owner {
      OwnerLeavesAlone(s, actor, expected);
    } else {
      var i := SeatIndex(s.seats, actor);
      assert s.seats[i := EMPTY_SEAT][i].account == [];
    }
  }

  /** Nobody has two seats. */
  lemma OnlySeat(s: RoomState, actor: Text)
    requires SeatsFine(s.seats) && actor != [] && Sits(s, actor)
    ensures SitsAt(s, actor, SeatIndex(s.seats, actor))
    ensures forall i :: 0 <= i < 3 && SitsAt(s, actor, i) ==> i == SeatIndex(s.seats, actor)
  {
  }

  lemma OwnerLeavesAlone(s: RoomState, actor: Text, expected: nat)
    requires Invariant(s) && actor == s.owner && Leave(s, actor, expected).Done?
    ensures SeatIndex(s.seats, actor) == 0 && SitsAt(s, [], 1) && SitsAt(s, [], 2)
  {
  }

  /** A ready change sets exactly the actor's flag, to the value asked for. */
  lemma ReadySetsFlag(s: RoomState, actor: Text, ready: bool, expected: nat)
    requires SetReady(s, actor, ready, expected).Done? && s.activeHand == []
    ensures var t := SetReady(s, actor, ready, expected); var s' := t.state;
            && s.version == expected && SameRoom(s, s')
            && (exists i :: 0 <= i < 3 && SitsAt(s, actor, i) && s.seats[i].ready != ready
                            && s'.seats[i] == RoomSeat(actor, ready) && OthersStay(s, s', i))
            && s'.status == (if EveryoneReady(s') then Ready else WaitingPlayers)
            && t.events == [Event(AggregateRoom, s.id, ReadyChanged, s'.version)]
  {
    assert SitsAt(s, actor, SeatIndex(s.seats, actor));
  }

  /** A hand starts for three ready members, by the owner; they keep their seats and are not ready any more. */
  lemma StartingTakesEveryone(s: RoomState, actor: Text, hand: Text, expected: nat)
    requires StartHand(s, actor, hand, expected).Done?
    ensures var t := StartHand(s, actor, hand, expected); var s' := t.state;
            && s.version == expected && actor == s.owner && s.status == Ready && EveryoneReady(s) && s.activeHand == []
            && s' == s.(activeHand := hand, status := HandActive, seats := s'.seats, version := s.version + 1)
            && (forall i :: 0 <= i < 3 ==> s'.seats[i] == RoomSeat(s.seats[i].account, false))
            && t.events == [Event(AggregateRoom, s.id, HandStarted, s'.version)]
  {
  }

  /** Finishing the active hand frees the room with everyone seated, and keeps its name if it has an archive. */
  lemma FinishingFreesRoom(s: RoomState, hand: Text, expected: nat, archived: bool)
    requires FinishHand(s, hand, expected, archived).Done?
    ensures var t := FinishHand(s, hand, expected, archived); var s' := t.state;
            && s.version == expected && s.status == HandActive && s.activeHand == hand
            && s' == s.(activeHand := [], lastHand := s'.lastHand, status := s'.status, version := s.version + 1)
            && s'.lastHand == (if archived then hand else [])
            && s'.status == (if EveryoneReady(s') then Ready else WaitingPlayers)
            && t.events == [Event(AggregateRoom, s.id, HandFinished, s'.version)]
  {
  }

  // ------------------------------------------------------------------ refused actions

  predicate SeatTaken(s: RoomState, i: nat) {
    i < 3 && s.seats[i].account != []
  }

  /** A reason against an action: what the error says is true of the room. */
  predicate Against(s: RoomState, a: RoomAction, e: Error) {
    match e
    case VersionConflict(expected, actual) => expected == a.expected && actual == s.version && expected != actual
    case InvalidArgument =>
      (a.JoinAction? && !ValidIdentifier(a.actor)) || (a.StartHandAction? && !ValidIdentifier(a.hand))
    case RoomIsClosed => !a.FinishHandAction? && s.status == Closed
    case HandIsActive => !a.FinishHandAction? && s.activeHand != []
    case AlreadySeated => a.JoinAction? && Sits(s, a.actor)
    case RoomFull => a.JoinAction? && SeatTaken(s, 0) && SeatTaken(s, 1) && SeatTaken(s, 2)
    case NotSeated => (a.LeaveAction? || a.SetReadyAction?) && !Sits(s, a.actor)
    case OwnerMustRemain =>
      a.LeaveAction? && a.actor == s.owner && exists i :: 0 <= i < 3 && SeatTaken(s, i) && !SitsAt(s, a.actor, i)
    case NoStateChange =>
      a.SetReadyAction? && exists i :: 0 <= i < 3 && SitsAt(s, a.actor, i) && s.seats[i].ready == a.ready
    case Forbidden => a.StartHandAction? && a.actor != s.owner
    case RoomNotReady => a.StartHandAction? && !EveryoneReady(s)
    case HandNotActive => a.FinishHandAction? && (s.activeHand == [] || s.activeHand != a.hand)
    case _ => false
  }

  /** Every refusal gives a reason that holds. */
  lemma RefusalsAreTrue(s: RoomState, a: RoomAction)
    requires Invariant(s) && ActorNamed(a) && Apply(s, a).Refused?
    ensures Against(s, a, Apply(s, a).error)
  {
    match a
    case JoinAction(actor, expected) =>
    case LeaveAction(actor, expected) => LeaveRefusedTruly(s, actor, expected);
    case SetReadyAction(actor, ready, expected) =>
      if SeatIndex(s.seats, actor) < 3 {
        assert SitsAt(s, actor, SeatIndex(s.seats, actor));
      }
    case StartHandAction(actor, hand, expected) =>
    case FinishHandAction(hand, expected, archived) =>
  }

  lemma LeaveRefusedTruly(s: RoomState, actor: Text, expected: nat)
    requires Invariant(s) && actor != [] && Leave(s, actor, expected).Refused?
    ensures Against(s, LeaveAction(actor, expected), Leave(s, actor, expected).error)
  {
    if Leave(s, actor, expected).error == OwnerMustRemain {
      assert SitsAt(s, actor, 0) && !SitsAt(s, actor, 1) && !SitsAt(s, actor, 2);
      assert SeatTaken(s, 1) || SeatTaken(s, 2);
    }
  }

  predicate MayLeave(s: RoomState, actor: Text, expected: nat) {
    && s.version == expected && s.status != Closed && s.activeHand == [] && Sits(s, actor)
    && (actor == s.owner ==> SitsAt(s, actor, 0) && !SeatTaken(s, 1) && !SeatTaken(s, 2))
  }

  lemma LeaversMay(s: RoomState, actor: Text, expected: nat)
    requires Invariant(s) && actor != [] && Leave(s, actor, expected).Done?
    ensures MayLeave(s, actor, expected)
  {
    if actor == s.owner {
      OwnerLeavesAlone(s, actor, expected);
    }
  }

  lemma LeavesWithoutReason(s: RoomState, actor: Text, expected: nat, e: Error)
    requires MayLeave(s, actor, expected)
    ensures !Against(s, LeaveAction(actor, expected), e)
  {
  }

  lemma SetsReadyWithoutReason(s: RoomState, actor: Text, ready: bool, expected: nat, e: Error)
    requires Invariant(s) && actor != [] && SetReady(s, actor, ready, expected).Done?
    ensures !Against(s, SetReadyAction(actor, ready, expected), e)
  {
    assert Sits(s, actor);
    OnlySeat(s, actor);
  }

  /** An action that is accepted has no reason against it. */
  lemma AcceptedWithoutReason(s: RoomState, a: RoomAction, e: Error)
    requires Invariant(s) && ActorNamed(a) && Apply(s, a).Done?
    ensures !Against(s, a, e)
  {
    match a
    case JoinAction(actor, expected) =>
    case LeaveAction(actor, expected) =>
      LeaversMay(s, actor, expected);
      LeavesWithoutReason(s, actor, expected, e);
    case SetReadyAction(actor, ready, expected) => SetsReadyWithoutReason(s, actor, ready, expected, e);
    case StartHandAction(actor, hand, expected) =>
    case FinishHandAction(hand, expected, archived) =>
  }

  /** A room accepts an action exactly when there is no reason against it. */
  lemma AcceptedIffNothingAgainst(s: RoomState, a: RoomAction)
    requires Invariant(s) && ActorNamed(a)
    ensures Apply(s, a).Done? <==> forall e :: !Against(s, a, e)
  {
    if Apply(s, a).Refused? {
      RefusalsAreTrue(s, a);
    } else {
      forall e ensures !Against(s, a, e) {
        AcceptedWithoutReason(s, a, e);
      }
    }
  }

  // ------------------------------------------------------------------ stored rooms

  /** The snapshots that load are exactly those of rooms that satisfy the invariant, and each loads as its room. */
  lemma LoadableIffSaved(t: RoomSnapshot)
    ensures Restore(t).Ok? <==> exists s :: Invariant(s) && Snapshot(s) == t
    ensures Restore(t).Ok? ==> Snapshot(Restore(t).value) == t && Invariant(Restore(t).value)
  {
    if Restore(t).Ok? {
      var s := Restore(t).value;
      assert Snapshot(s).seats == t.seats by {
        assert SeatAcceptable(t.seats, 0) && SeatAcceptable(t.seats, 1) && SeatAcceptable(t.seats, 2);
      }
      assert Snapshot(s) == t;
      SoundIffInvariant(s);
    }
    if s :| Invariant(s) && Snapshot(s) == t {
      SoundIffInvariant(s);
    }
  }
}
