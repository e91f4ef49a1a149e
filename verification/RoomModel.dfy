/** The room aggregate: three seats, one owner, at most one active hand. */
module RoomModel {
  import opened Text
  import opened Domain

  datatype RoomStatus = WaitingPlayers | Ready | HandActive | Closed | UnknownStatus

  datatype RoomSeat = RoomSeat(account: Text, ready: bool)

  const EMPTY_SEAT := RoomSeat([], false)

  type ThreeSeats = s: seq<RoomSeat> | |s| == 3 witness [RoomSeat([], false), RoomSeat([], false), RoomSeat([], false)]

  datatype RoomState = RoomState(
    id: Text, owner: Text, status: RoomStatus, seats: ThreeSeats,
    activeHand: Text, lastHand: Text, version: nat)

  datatype SeatSnapshot = SeatSnapshot(seat: nat, account: Text, ready: bool)

  type ThreeSnapshots = s: seq<SeatSnapshot> | |s| == 3
    witness [SeatSnapshot(1, [], false), SeatSnapshot(2, [], false), SeatSnapshot(3, [], false)]

  datatype RoomSnapshot = RoomSnapshot(
    id: Text, owner: Text, status: RoomStatus, seats: ThreeSnapshots,
    activeHand: Text, lastHand: Text, version: nat)

  // ------------------------------------------------------------------ specification of the transitions

  /** The index of the first seat with this account, or 3. */
  function SeatIndex(seats: ThreeSeats, account: Text): (i: nat)
    ensures i <= 3
    ensures i < 3 ==> seats[i].account == account
    ensures forall j :: 0 <= j < i ==> seats[j].account != account
  {
    if seats[0].account == account then 0
    else if seats[1].account == account then 1
    else if seats[2].account == account then 2 else 3
  }

  function Occupied(seats: ThreeSeats): (n: nat)
    ensures n <= 3
    ensures n == 3 <==> forall i :: 0 <= i < 3 ==> seats[i].account != []
  {
    (if seats[0].account != [] then 1 else 0)
    + (if seats[1].account != [] then 1 else 0)
    + (if seats[2].account != [] then 1 else 0)
  }

  predicate AllReady(seats: ThreeSeats) {
    forall i :: 0 <= i < 3 ==> seats[i].account != [] && seats[i].ready
  }

  function Recalculated(s: RoomState): RoomState {
    if s.status == Closed then s
    else if s.activeHand != [] then s.(status := HandActive)
    else if AllReady(s.seats) then s.(status := Ready)
    else s.(status := WaitingPlayers)
  }

  /** The version goes up by one and the event carries it. */
  function Recorded(s: RoomState, name: EventName): Transition<RoomState> {
    var s' := s.(version := s.version + 1);
    Done(s', [Event(AggregateRoom, s.id, name, s'.version)])
  }

  function NewRoom(id: Text, owner: Text): Transition<RoomState> {
    if !ValidIdentifier(id) || !ValidIdentifier(owner) then Refused(InvalidArgument)
    else Recorded(RoomState(id, owner, WaitingPlayers, [RoomSeat(owner, false), EMPTY_SEAT, EMPTY_SEAT], [], [], 0),
                  RoomCreated)
  }

  function Join(s: RoomState, actor: Text, expected: nat): Transition<RoomState> {
    if s.version != expected then Refused(VersionConflict(expected, s.version))
    else if !ValidIdentifier(actor) then Refused(InvalidArgument)
    else if s.status == Closed then Refused(RoomIsClosed)
    else if s.status == HandActive then Refused(HandIsActive)
    else if SeatIndex(s.seats, actor) < 3 then Refused(AlreadySeated)
    else if SeatIndex(s.seats, []) == 3 then Refused(RoomFull)
    else Recorded(Recalculated(s.(seats := s.seats[SeatIndex(s.seats, []) := RoomSeat(actor, false)])), PlayerJoined)
  }

  function Leave(s: RoomState, actor: Text, expected: nat): Transition<RoomState> {
    if s.version != expected then Refused(VersionConflict(expected, s.version))
    else if s.status == Closed then Refused(RoomIsClosed)
    else if s.status == HandActive then Refused(HandIsActive)
    else
      var i := SeatIndex(s.seats, actor);
      if i == 3 then Refused(NotSeated)
      else
        var seats := s.seats[i := EMPTY_SEAT];
        if actor == s.owner then
          if Occupied(s.seats) > 1 then Refused(OwnerMustRemain)
          else Recorded(s.(seats := seats, status := Closed), RoomClosed)
        else Recorded(Recalculated(s.(seats := seats)), PlayerLeft)
  }

  function SetReady(s: RoomState, actor: Text, ready: bool, expected: nat): Transition<RoomState> {
    if s.version != expected then Refused(VersionConflict(expected, s.version))
    else if s.status == Closed then Refused(RoomIsClosed)
    else if s.status == HandActive then Refused(HandIsActive)
    else
      var i := SeatIndex(s.seats, actor);
      if i == 3 then Refused(NotSeated)
      else if s.seats[i].ready == ready then Refused(NoStateChange)
      else Recorded(Recalculated(s.(seats := s.seats[i := RoomSeat(actor, ready)])), ReadyChanged)
  }

  function Unready(seats: ThreeSeats): ThreeSeats {
    [seats[0].(ready := false), seats[1].(ready := false), seats[2].(ready := false)]
  }

  function StartHand(s: RoomState, actor: Text, hand: Text, expected: nat): Transition<RoomState> {
    if s.version != expected then Refused(VersionConflict(expected, s.version))
    else if actor != s.owner then Refused(Forbidden)
    else if !ValidIdentifier(hand) then Refused(InvalidArgument)
    else if s.status == Closed then Refused(RoomIsClosed)
    else if s.activeHand != [] || s.status == HandActive then Refused(HandIsActive)
    else if s.status != Ready || !AllReady(s.seats) then Refused(RoomNotReady)
    else Recorded(s.(activeHand := hand, status := HandActive, seats := Unready(s.seats)), HandStarted)
  }

  function FinishHand(s: RoomState, hand: Text, expected: nat, archived: bool): Transition<RoomState> {
    if s.version != expected then Refused(VersionConflict(expected, s.version))
    else if s.status != HandActive || s.activeHand == [] || s.activeHand != hand then Refused(HandNotActive)
    else Recorded(Recalculated(s.(activeHand := [], lastHand := if archived then hand else [])), HandFinished)
  }

  // ------------------------------------------------------------------ snapshot and restore

  function Snapshot(s: RoomState): RoomSnapshot {
    RoomSnapshot(s.id, s.owner, s.status,
                 [SeatSnapshot(1, s.seats[0].account, s.seats[0].ready),
                  SeatSnapshot(2, s.seats[1].account, s.seats[1].ready),
                  SeatSnapshot(3, s.seats[2].account, s.seats[2].ready)],
                 s.activeHand, s.lastHand, s.version)
  }

  predicate SeatAcceptable(seats: ThreeSnapshots, i: nat)
    requires i < 3
  {
    && seats[i].seat == i + 1
    && if seats[i].account == [] then !seats[i].ready
       else
         && ValidIdentifier(seats[i].account)
         && forall j :: 0 <= j < i ==> seats[j].account != seats[i].account
  }

  predicate StatusConsistent(s: RoomState) {
    match s.status
    case HandActive => s.activeHand != [] && Occupied(s.seats) == 3 && ValidIdentifier(s.activeHand)
    case Ready => s.activeHand == [] && AllReady(s.seats)
    case WaitingPlayers => s.activeHand == [] && !AllReady(s.seats)
    case Closed => s.activeHand == [] && Occupied(s.seats) == 0
    case UnknownStatus => false
  }

  function Rebuilt(t: RoomSnapshot): RoomState {
    RoomState(t.id, t.owner, t.status,
              [RoomSeat(t.seats[0].account, t.seats[0].ready),
               RoomSeat(t.seats[1].account, t.seats[1].ready),
               RoomSeat(t.seats[2].account, t.seats[2].ready)],
              t.activeHand, t.lastHand, t.version)
  }

  /** Which snapshots RestoreRoom accepts. */
  predicate Restorable(t: RoomSnapshot) {
    && ValidIdentifier(t.id) && ValidIdentifier(t.owner) && t.version > 0
    && (t.lastHand != [] ==> ValidIdentifier(t.lastHand))
    && (forall i :: 0 <= i < 3 ==> SeatAcceptable(t.seats, i))
    && (t.status != Closed ==> t.seats[0].account == t.owner)
    && StatusConsistent(Rebuilt(t))
  }

  function Restore(t: RoomSnapshot): Result<RoomState> {
    if Restorable(t) then Ok(Rebuilt(t)) else Err(InvalidArgument)
  }

  /** A room that survives being saved and loaded. */
  predicate Sound(s: RoomState) {
    Restore(Snapshot(s)) == Ok(s)
  }

  // ------------------------------------------------------------------ what every transition keeps

  datatype RoomAction =
    | JoinAction(actor: Text, expected: nat)
    | LeaveAction(actor: Text, expected: nat)
    | SetReadyAction(actor: Text, ready: bool, expected: nat)
    | StartHandAction(actor: Text, hand: Text, expected: nat)
    | FinishHandAction(hand: Text, expected: nat, archived: bool)

  function Apply(s: RoomState, a: RoomAction): Transition<RoomState> {
    match a
    case JoinAction(actor, expected) => Join(s, actor, expected)
    case LeaveAction(actor, expected) => Leave(s, actor, expected)
    case SetReadyAction(actor, ready, expected) => SetReady(s, actor, ready, expected)
    case StartHandAction(actor, hand, expected) => StartHand(s, actor, hand, expected)
    case FinishHandAction(hand, expected, archived) => FinishHand(s, hand, expected, archived)
  }

  /** The service never calls the domain for a blank actor. */
  predicate ActorNamed(a: RoomAction) {
    match a
    case FinishHandAction(_, _, _) => true
    case _ => a.actor != []
  }

  lemma NewRoomIsSound(id: Text, owner: Text)
    requires NewRoom(id, owner).Done?
    ensures Sound(NewRoom(id, owner).state)
    ensures Numbered(NewRoom(id, owner).events, AggregateRoom, id, 0) && NewRoom(id, owner).state.version == 1
  {
    BlankIsEmpty();
  }

  predicate SeatFine(seats: ThreeSeats, i: nat)
    requires i < 3
  {
    if seats[i].account == [] then !seats[i].ready
    else
      && ValidIdentifier(seats[i].account)
      && forall j :: 0 <= j < i ==> seats[j].account != seats[i].account
  }

  predicate SeatsFine(seats: ThreeSeats) {
    SeatFine(seats, 0) && SeatFine(seats, 1) && SeatFine(seats, 2)
  }

  lemma SeatUpdate(seats: ThreeSeats, i: nat, seat: RoomSeat)
    requires SeatsFine(seats) && i < 3
    requires if seat.account == [] then !seat.ready
             else ValidIdentifier(seat.account) && forall j :: 0 <= j < 3 && j != i ==> seats[j].account != seat.account
    ensures SeatsFine(seats[i := seat])
  {
    if i == 0 {
    } else if i == 1 {
    } else {
    }
  }

  lemma RecalculationIsConsistent(s: RoomState)
    requires s.status != Closed && s.activeHand == []
    ensures StatusConsistent(Recalculated(s))
  {
  }

  /** What makes a room sound, said of the room itself. */
  predicate Invariant(s: RoomState) {
    && ValidIdentifier(s.id) && ValidIdentifier(s.owner) && s.version > 0
    && (s.lastHand != [] ==> ValidIdentifier(s.lastHand))
    && SeatsFine(s.seats)
    && (s.status != Closed ==> s.seats[0].account == s.owner)
    && StatusConsistent(s)
  }

  lemma SoundIffInvariant(s: RoomState)
    ensures Sound(s) <==> Invariant(s)
  {
    var t := Snapshot(s);
    assert Rebuilt(t).seats == s.seats;
    assert Rebuilt(t) == s;
    SeatsAgree(s, 0);
    SeatsAgree(s, 1);
    SeatsAgree(s, 2);
    if Invariant(s) {
      forall i | 0 <= i < 3 ensures SeatAcceptable(t.seats, i) {
        SeatsAgree(s, i);
      }
    }
  }

  lemma SeatsAgree(s: RoomState, i: nat)
    requires i < 3
    ensures SeatAcceptable(Snapshot(s).seats, i) <==> SeatFine(s.seats, i)
  {
    var t := Snapshot(s);
    assert forall j :: 0 <= j < 3 ==> t.seats[j].account == s.seats[j].account;
    assert t.seats[i].seat == i + 1 && t.seats[i].ready == s.seats[i].ready;
  }

  lemma TransitionsKeepInvariant(s: RoomState, a: RoomAction)
    requires Invariant(s) && ActorNamed(a) && Apply(s, a).Done?
    ensures Invariant(Apply(s, a).state)
  {
    BlankIsEmpty();
    match a
    case JoinAction(actor, expected) => JoinKeepsInvariant(s, actor, expected);
    case LeaveAction(actor, expected) => LeaveKeepsInvariant(s, actor, expected);
    case SetReadyAction(actor, ready, expected) => SetReadyKeepsInvariant(s, actor, ready, expected);
    case StartHandAction(actor, hand, expected) =>
    case FinishHandAction(hand, expected, archived) =>
  }

  lemma JoinKeepsInvariant(s: RoomState, actor: Text, expected: nat)
    requires Invariant(s) && Join(s, actor, expected).Done?
    ensures Invariant(Join(s, actor, expected).state)
  {
    BlankIsEmpty();
    var i, seat := SeatIndex(s.seats, []), RoomSeat(actor, false);
    SeatUpdate(s.seats, i, seat);
    RecalculationIsConsistent(s.(seats := s.seats[i := seat]));
  }

  lemma LeaveKeepsInvariant(s: RoomState, actor: Text, expected: nat)
    requires Invariant(s) && actor != [] && Leave(s, actor, expected).Done?
    ensures Invariant(Leave(s, actor, expected).state)
  {
    var i := SeatIndex(s.seats, actor);
    SeatUpdate(s.seats, i, EMPTY_SEAT);
    if actor != s.owner {
      RecalculationIsConsistent(s.(seats := s.seats[i := EMPTY_SEAT]));
    }
  }

  lemma SetReadyKeepsInvariant(s: RoomState, actor: Text, ready: bool, expected: nat)
    requires Invariant(s) && actor != [] && SetReady(s, actor, ready, expected).Done?
    ensures Invariant(SetReady(s, actor, ready, expected).state)
  {
    var i, seat := SeatIndex(s.seats, actor), RoomSeat(actor, ready);
    SeatUpdate(s.seats, i, seat);
    RecalculationIsConsistent(s.(seats := s.seats[i := seat]));
  }

  lemma TransitionsKeepSoundness(s: RoomState, a: RoomAction)
    requires Sound(s) && ActorNamed(a) && Apply(s, a).Done?
    ensures Sound(Apply(s, a).state)
  {
    SoundIffInvariant(s);
    TransitionsKeepInvariant(s, a);
    SoundIffInvariant(Apply(s, a).state);
  }

  /** Without a name the ready flag can land on an empty seat, and such a room cannot be loaded again:
      exactly the unnamed actor breaks soundness. */
  lemma ReadyOnEmptySeat(s: RoomState, actor: Text, ready: bool, expected: nat)
    requires Sound(s) && SetReady(s, actor, ready, expected).Done?
    ensures Sound(SetReady(s, actor, ready, expected).state) <==> actor != []
  {
    var s' := SetReady(s, actor, ready, expected).state;
    SoundIffInvariant(s);
    SoundIffInvariant(s');
    if actor != [] {
      TransitionsKeepSoundness(s, SetReadyAction(actor, ready, expected));
    } else {
      var i := SeatIndex(s.seats, actor);
      assert s'.seats[i] == RoomSeat([], true);
    }
  }

  /** Each transition emits exactly one event, numbered with the version it leaves, and keeps identity. */
  lemma OneEventPerTransition(s: RoomState, a: RoomAction)
    requires Apply(s, a).Done?
    ensures Apply(s, a).state.version == s.version + 1 && |Apply(s, a).events| == 1
    ensures Numbered(Apply(s, a).events, AggregateRoom, s.id, s.version)
    ensures Apply(s, a).state.id == s.id && Apply(s, a).state.owner == s.owner
  {
  }

  lemma StartHandEvent(s: RoomState, actor: Text, hand: Text, expected: nat)
    requires StartHand(s, actor, hand, expected).Done?
    ensures var t := StartHand(s, actor, hand, expected);
            && t.state == s.(activeHand := hand, status := HandActive, seats := Unready(s.seats),
                             version := s.version + 1)
            && t.events == [Event(AggregateRoom, s.id, HandStarted, s.version + 1)]
            && s.version == expected && s.status == Ready
  {
  }

  lemma FinishHandEvent(s: RoomState, hand: Text, expected: nat, archived: bool)
    requires FinishHand(s, hand, expected, archived).Done?
    ensures var t := FinishHand(s, hand, expected, archived);
            && t.state.id == s.id && t.state.owner == s.owner && t.state.seats == s.seats
            && t.state.version == s.version + 1
            && t.state.activeHand == [] && t.state.status != HandActive
            && t.events == [Event(AggregateRoom, s.id, HandFinished, s.version + 1)]
            && s.version == expected && s.activeHand == hand
  {
  }

  /** While a hand is active nothing but finishing that hand is possible, and that keeps the seats. */
  lemma ActiveHandBlocksTheRest(s: RoomState, a: RoomAction)
    requires s.status == HandActive && Apply(s, a).Done?
    ensures a.FinishHandAction? && a.hand == s.activeHand
    ensures var s' := Apply(s, a).state; s'.status != HandActive && s'.activeHand == [] && s'.seats == s.seats
  {
    match a
    case FinishHandAction(hand, expected, archived) =>
    case _ =>
  }

  /** Only starting a hand makes a room active, with that hand and three occupied seats. */
  lemma OnlyStartActivates(s: RoomState, a: RoomAction)
    requires StatusConsistent(s) && s.status != HandActive && Apply(s, a).Done?
    ensures Apply(s, a).state.status == HandActive <==> a.StartHandAction?
    ensures a.StartHandAction? ==> Apply(s, a).state.activeHand == a.hand && a.hand != []
    ensures !a.StartHandAction? ==> Apply(s, a).state.activeHand == []
  {
    BlankIsEmpty();
    match a
    case StartHandAction(actor, hand, expected) =>
    case FinishHandAction(hand, expected, archived) =>
    case JoinAction(actor, expected) =>
    case LeaveAction(actor, expected) =>
    case SetReadyAction(actor, ready, expected) =>
  }

  /** An in-memory run; refused actions change nothing. */
  function Run(s: RoomState, actions: seq<RoomAction>): RoomState {
    if actions == [] then s
    else
      var before := Run(s, actions[..|actions| - 1]);
      Succeeded(Apply(before, actions[|actions| - 1]), before)
  }

  /** The same run when the room is saved after, and loaded before, every action. */
  function PersistedRun(t: RoomSnapshot, actions: seq<RoomAction>): Result<RoomSnapshot> {
    if actions == [] then Ok(t)
    else
      match PersistedRun(t, actions[..|actions| - 1])
      case Err(e) => Err(e)
      case Ok(stored) =>
        match Restore(stored)
        case Err(e) => Err(e)
        case Ok(s) => Ok(Snapshot(Succeeded(Apply(s, actions[|actions| - 1]), s)))
  }

  /** Any number of save/load cycles leaves the persisted run equal to the run in memory. */
  lemma {:induction false} PersistenceIsTransparent(s: RoomState, actions: seq<RoomAction>)
    requires Sound(s) && forall a :: a in actions ==> ActorNamed(a)
    ensures Sound(Run(s, actions))
    ensures PersistedRun(Snapshot(s), actions) == Ok(Snapshot(Run(s, actions)))
  {
    if actions != [] {
      var a := actions[|actions| - 1];
      PersistenceIsTransparent(s, actions[..|actions| - 1]);
      var before := Run(s, actions[..|actions| - 1]);
      if Apply(before, a).Done? {
        TransitionsKeepSoundness(before, a);
      }
    }
  }
}
