/** The room aggregate as the object the service mutates. */
module RoomAggregate {
  import opened Text
  import opened Domain
  import opened RoomModel
  import Spec = RoomModel

  class Room {
    const id: Text
    const owner: Text
    var status: RoomStatus
    var seats: ThreeSeats
    var activeHand: Text
    var lastHand: Text
    var version: nat

    function State(): RoomState
      reads this
    {
      RoomState(id, owner, status, seats, activeHand, lastHand, version)
    }

    constructor (s: RoomState)
      ensures State() == s
    {
      id, owner, status, seats := s.id, s.owner, s.status, s.seats;
      activeHand, lastHand, version := s.activeHand, s.lastHand, s.version;
    }

    method Record(name: EventName) returns (e: Event)
      modifies this`version
      ensures version == old(version) + 1 && e == Event(AggregateRoom, id, name, version)
    {
      version := version + 1;
      e := Event(AggregateRoom, id, name, version);
    }

    method SeatOf(account: Text) returns (i: nat)
      ensures i == SeatIndex(seats, account)
    {
      i := 0;
      while i < 3
        invariant 0 <= i <= 3
        invariant forall j :: 0 <= j < i ==> seats[j].account != account
      {
        if seats[i].account == account {
          return;
        }
        i := i + 1;
      }
    }

    method OccupiedCount() returns (count: nat)
      ensures count == Occupied(seats)
    {
      count := 0;
      if seats[0].account != [] { count := count + 1; }
      if seats[1].account != [] { count := count + 1; }
      if seats[2].account != [] { count := count + 1; }
    }

    method RecalculateStatus()
      modifies this`status
      ensures State() == Recalculated(old(State()))
    {
      if status == Closed {
        return;
      }
      if activeHand != [] {
        status := HandActive;
        return;
      }
      var count := OccupiedCount();
      if count == 3 && AllReady(seats) {
        status := Ready;
        return;
      }
      status := WaitingPlayers;
    }

    method Join(actor: Text, expected: nat) returns (r: Result<seq<Event>>)
      modifies this
      ensures Performs(old(State()), Spec.Join(old(State()), actor, expected), State(), r)
    {
      if version != expected { return Err(VersionConflict(expected, version)); }
      if !ValidIdentifier(actor) { return Err(InvalidArgument); }
      if status == Closed { return Err(RoomIsClosed); }
      if status == HandActive { return Err(HandIsActive); }
      var taken := SeatOf(actor);
      if taken < 3 { return Err(AlreadySeated); }
      var index := 0;
      while index < 3
        invariant 0 <= index <= 3
        invariant State() == old(State())
        invariant forall j :: 0 <= j < index ==> seats[j].account != []
      {
        if seats[index].account == [] {
          assert index == SeatIndex(seats, []);
          seats := seats[index := RoomSeat(actor, false)];
          RecalculateStatus();
          var e := Record(PlayerJoined);
          return Ok([e]);
        }
        index := index + 1;
      }
      return Err(RoomFull);
    }

    method Leave(actor: Text, expected: nat) returns (r: Result<seq<Event>>)
      modifies this
      ensures Performs(old(State()), Spec.Leave(old(State()), actor, expected), State(), r)
    {
      if version != expected { return Err(VersionConflict(expected, version)); }
      if status == Closed { return Err(RoomIsClosed); }
      if status == HandActive { return Err(HandIsActive); }
      var seat := SeatOf(actor);
      if seat == 3 { return Err(NotSeated); }
      if actor == owner {
        var count := OccupiedCount();
        if count > 1 { return Err(OwnerMustRemain); }
        seats := seats[seat := EMPTY_SEAT];
        status := Closed;
        var closed := Record(RoomClosed);
        return Ok([closed]);
      }
      seats := seats[seat := EMPTY_SEAT];
      RecalculateStatus();
      var e := Record(PlayerLeft);
      return Ok([e]);
    }

    method SetReady(actor: Text, ready: bool, expected: nat) returns (r: Result<seq<Event>>)
      modifies this
      ensures Performs(old(State()), Spec.SetReady(old(State()), actor, ready, expected), State(), r)
    {
      if version != expected { return Err(VersionConflict(expected, version)); }
      if status == Closed { return Err(RoomIsClosed); }
      if status == HandActive { return Err(HandIsActive); }
      var seat := SeatOf(actor);
      if seat == 3 { return Err(NotSeated); }
      if seats[seat].ready == ready { return Err(NoStateChange); }
      seats := seats[seat := seats[seat].(ready := ready)];
      RecalculateStatus();
      var e := Record(ReadyChanged);
      return Ok([e]);
    }

    method StartHand(actor: Text, hand: Text, expected: nat) returns (r: Result<seq<Event>>)
      modifies this
      ensures Performs(old(State()), Spec.StartHand(old(State()), actor, hand, expected), State(), r)
    {
      if version != expected { return Err(VersionConflict(expected, version)); }
      if actor != owner { return Err(Forbidden); }
      if !ValidIdentifier(hand) { return Err(InvalidArgument); }
      if status == Closed { return Err(RoomIsClosed); }
      if activeHand != [] || status == HandActive { return Err(HandIsActive); }
      var count := OccupiedCount();
      if status != Ready || count != 3 || !AllReady(seats) { return Err(RoomNotReady); }
      activeHand := hand;
      status := HandActive;
      var index := 0;
      while index < 3
        invariant 0 <= index <= 3
        invariant State() == old(State()).(activeHand := hand, status := HandActive, seats := seats)
        invariant forall j :: 0 <= j < 3 ==>
                    seats[j] == if j < index then old(seats)[j].(ready := false) else old(seats)[j]
      {
        seats := seats[index := seats[index].(ready := false)];
        index := index + 1;
      }
      assert seats == Unready(old(seats));
      var e := Record(HandStarted);
      return Ok([e]);
    }

    method FinishHand(hand: Text, expected: nat, archived: bool) returns (r: Result<seq<Event>>)
      modifies this
      ensures Performs(old(State()), Spec.FinishHand(old(State()), hand, expected, archived), State(), r)
    {
      if version != expected { return Err(VersionConflict(expected, version)); }
      if status != HandActive || activeHand == [] || activeHand != hand { return Err(HandNotActive); }
      activeHand := [];
      if archived {
        lastHand := hand;
      } else {
        lastHand := [];
      }
      RecalculateStatus();
      var e := Record(HandFinished);
      return Ok([e]);
    }
  }

  /** RestoreRoom: the checks in their order, the seats in a loop. */
  method RestoreRoom(t: RoomSnapshot) returns (r: Result<Room>)
    ensures match Restore(t)
            case Ok(s) => r.Ok? && fresh(r.value) && r.value.State() == s
            case Err(e) => r == Err(e)
  {
    if !ValidIdentifier(t.id) || !ValidIdentifier(t.owner) || t.version == 0 { return Err(InvalidArgument); }
    if t.lastHand != [] && !ValidIdentifier(t.lastHand) { return Err(InvalidArgument); }
    if t.status == UnknownStatus { return Err(InvalidArgument); }
    var seats :- RestoreSeats(t);
    var room := new Room(RoomState(t.id, t.owner, t.status, seats, t.activeHand, t.lastHand, t.version));
    if t.status != Closed && room.seats[0].account != t.owner { return Err(InvalidArgument); }
    if !StatusConsistent(room.State()) { return Err(InvalidArgument); }
    return Ok(room);
  }

  method RestoreSeats(t: RoomSnapshot) returns (r: Result<ThreeSeats>)
    ensures if forall i :: 0 <= i < 3 ==> SeatAcceptable(t.seats, i) then r == Ok(Rebuilt(t).seats)
            else r == Err(InvalidArgument)
  {
    var seats: seq<RoomSeat> := [];
    ghost var rebuilt := Rebuilt(t).seats;
    var seen: set<Text> := {};
    var index := 0;
    while index < 3
      invariant 0 <= index <= 3
      invariant seats == rebuilt[..index]
      invariant forall a: Text :: a in seen <==> a != [] && exists j :: 0 <= j < index && t.seats[j].account == a
      invariant forall j :: 0 <= j < index ==> SeatAcceptable(t.seats, j)
    {
      var current := t.seats[index];
      if current.seat != index + 1 { assert !SeatAcceptable(t.seats, index); return Err(InvalidArgument); }
      if current.account == [] {
        if current.ready { assert !SeatAcceptable(t.seats, index); return Err(InvalidArgument); }
        seats := seats + [EMPTY_SEAT];
      } else {
        if !ValidIdentifier(current.account) { assert !SeatAcceptable(t.seats, index); return Err(InvalidArgument); }
        if current.account in seen { assert !SeatAcceptable(t.seats, index); return Err(InvalidArgument); }
        seen := seen + {current.account};
        seats := seats + [RoomSeat(current.account, current.ready)];
      }
      index := index + 1;
    }
    assert rebuilt[..3] == rebuilt;
    return Ok(seats);
  }
}
