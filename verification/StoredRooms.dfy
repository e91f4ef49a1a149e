/** What accepted commands do to the stored rooms, and to their members. */
module StoredRooms {
  import opened Bytes
  import opened Text
  import opened Domain
  import opened Store
  import opened Service
  import opened Effects
  import opened Acceptance
  import opened StoreInvariant
  import opened Ledger
  import opened Reachable
  import opened Rejections
  import opened StoredHands
  import RoomMeaning
  import R = RoomModel
  import H = HandModel

  lemma RoomRowLoads(db: Database, id: Text, s: R.RoomState)
    requires Loadable(db) && id in db.rooms && db.rooms[id] == R.Snapshot(s)
    ensures RoomAt(db, id) == Some(s) && R.Invariant(s)
  {
    assert RoomRowFine(id, db.rooms[id]);
    SnapshotIsRebuilt(s);
    R.SoundIffInvariant(s);
  }

  lemma SnapshotIsRebuilt(s: R.RoomState)
    ensures R.Rebuilt(R.Snapshot(s)) == s
  {
    assert R.Rebuilt(R.Snapshot(s)).seats == s.seats;
  }

  /** An accepted command of a member takes its room from one state to the next by the member's own action, and
      touches nothing else. */
  lemma MemberDelivery(db: Database, d: Delivery) returns (s: R.RoomState, t: Transition<R.RoomState>)
    requires Consistent(db) && H.NeverZero(d.env.commitOf) && MemberOperation(d.op) && NewlyAccepted(Reply(db, d))
    ensures var id := d.command.aggregateId;
            && RoomAt(db, id) == Some(s) && R.Invariant(s) && d.actor != []
            && t.Done? && RoomAt(After(db, d), id) == Some(t.state)
            && t == R.Apply(s, MemberActionOf(d.op, d.actor, d.command.expectedVersion))
            && id in After(db, d).rooms && After(db, d).rooms == db.rooms[id := After(db, d).rooms[id]]
            && After(db, d).hands == db.hands
  {
    var e, claimed, tx, events := AcceptedEffect(db, d);
    AcceptedEntry(db, d);
    BlankIsEmpty();
    IntendedMember(e, d, Bound(d.command, d.op, d.env));
    MemberEffect(e, db, claimed, d.env.commitOf, tx, After(db, d), events);
    s, t := e.s, R.Apply(e.s, e.a);
  }

  lemma IntendedMember(e: Effect, d: Delivery, command: Command)
    requires MemberOperation(d.op) && Intended(e, d.actor, command, d.op, d.env)
    requires command.expectedVersion == d.command.expectedVersion
    ensures e.RoomChanged? && e.a == MemberActionOf(d.op, d.actor, d.command.expectedVersion)
  {
  }

  lemma MemberEffect(e: Effect, db: Database, claimed: Database, commitOf: H.CommitFunction, tx: Database,
                     later: Database, events: seq<Event>)
    requires e.RoomChanged? && Caused(e, claimed, commitOf, tx, events) && claimed == db.(ledger := claimed.ledger)
    requires Loadable(db) && Loadable(later) && later.rooms == tx.rooms && later.hands == tx.hands
    ensures RoomAt(db, e.s.id) == Some(e.s) && R.Invariant(e.s) && e.s'.id == e.s.id
    ensures R.Apply(e.s, e.a).Done? && R.Apply(e.s, e.a).state == e.s' && RoomAt(later, e.s.id) == Some(e.s')
    ensures later.rooms == db.rooms[e.s.id := later.rooms[e.s.id]] && later.hands == db.hands
  {
    R.OneEventPerTransition(e.s, e.a);
    RoomIsLoaded(db, e.s.id);
    RoomRowLoads(later, e.s.id, e.s');
  }

  // ------------------------------------------------------------------ members

  /** After an accepted join the actor sits, not ready, in a seat of the stored room that was empty, and the others are
      as they were. */
  lemma {:induction false} JoinerSits(ds: seq<Delivery>, d: Delivery) returns (i: nat)
    requires Hashing(ds) && H.NeverZero(d.env.commitOf) && d.op.JoinRoom?
    requires NewlyAccepted(Reply(Reachable.Run(EMPTY_DATABASE, ds), d))
    ensures var db, id := Reachable.Run(EMPTY_DATABASE, ds), d.command.aggregateId;
            && RoomAt(db, id).Some? && RoomAt(After(db, d), id).Some?
            && var s, s' := RoomAt(db, id).value, RoomAt(After(db, d), id).value;
              && !RoomMeaning.Sits(s, d.actor) && RoomMeaning.SitsAt(s, [], i)
              && s'.seats[i] == R.RoomSeat(d.actor, false) && RoomMeaning.OthersStay(s, s', i)
  {
    EveryReachableStoreIsConsistent(ds);
    var s, t := MemberDelivery(Reachable.Run(EMPTY_DATABASE, ds), d);
    RoomMeaning.JoiningTakesSeat(s, d.actor, d.command.expectedVersion);
    i :| 0 <= i < 3 && RoomMeaning.SitsAt(s, [], i) && t.state.seats[i] == R.RoomSeat(d.actor, false)
         && RoomMeaning.OthersStay(s, t.state, i);
  }

  /** After an accepted leave the actor has no seat in the stored room, and the others are as they were. */
  lemma {:induction false} LeaverIsGone(ds: seq<Delivery>, d: Delivery) returns (i: nat)
    requires Hashing(ds) && H.NeverZero(d.env.commitOf) && d.op.LeaveRoom?
    requires NewlyAccepted(Reply(Reachable.Run(EMPTY_DATABASE, ds), d))
    ensures var db, id := Reachable.Run(EMPTY_DATABASE, ds), d.command.aggregateId;
            && RoomAt(db, id).Some? && RoomAt(After(db, d), id).Some?
            && var s, s' := RoomAt(db, id).value, RoomAt(After(db, d), id).value;
              && RoomMeaning.SitsAt(s, d.actor, i) && !RoomMeaning.Sits(s', d.actor)
              && s'.seats[i] == R.RoomSeat([], false) && RoomMeaning.OthersStay(s, s', i)
  {
    EveryReachableStoreIsConsistent(ds);
    var s, t := MemberDelivery(Reachable.Run(EMPTY_DATABASE, ds), d);
    RoomMeaning.LeavingVacatesSeat(s, d.actor, d.command.expectedVersion);
    i :| 0 <= i < 3 && RoomMeaning.SitsAt(s, d.actor, i) && t.state.seats[i] == R.RoomSeat([], false)
         && RoomMeaning.OthersStay(s, t.state, i);
  }

  /** After an accepted ready change exactly the actor's flag in the stored room has the value asked for. */
  lemma {:induction false} ReadyIsSet(ds: seq<Delivery>, d: Delivery) returns (i: nat)
    requires Hashing(ds) && H.NeverZero(d.env.commitOf) && d.op.SetRoomReady?
    requires NewlyAccepted(Reply(Reachable.Run(EMPTY_DATABASE, ds), d))
    ensures var db, id := Reachable.Run(EMPTY_DATABASE, ds), d.command.aggregateId;
            && RoomAt(db, id).Some? && RoomAt(After(db, d), id).Some?
            && var s, s' := RoomAt(db, id).value, RoomAt(After(db, d), id).value;
              && RoomMeaning.SitsAt(s, d.actor, i) && s'.seats[i] == R.RoomSeat(d.actor, d.op.ready)
              && RoomMeaning.OthersStay(s, s', i)
  {
    EveryReachableStoreIsConsistent(ds);
    var s, t := MemberDelivery(Reachable.Run(EMPTY_DATABASE, ds), d);
    RoomMeaning.ReadySetsFlag(s, d.actor, d.op.ready, d.command.expectedVersion);
    i :| 0 <= i < 3 && RoomMeaning.SitsAt(s, d.actor, i) && t.state.seats[i] == R.RoomSeat(d.actor, d.op.ready)
         && RoomMeaning.OthersStay(s, t.state, i);
  }

  // ------------------------------------------------------------------ rooms and their hands

  /** An accepted creation stores a room with its owner in the first seat and nobody else. */
  lemma {:induction false} CreatorOwnsRoom(ds: seq<Delivery>, d: Delivery)
    requires Hashing(ds) && H.NeverZero(d.env.commitOf) && d.op.CreateRoom?
    requires NewlyAccepted(Reply(Reachable.Run(EMPTY_DATABASE, ds), d))
    ensures var db, id := Reachable.Run(EMPTY_DATABASE, ds), d.command.aggregateId;
            && id !in db.rooms && RoomAt(After(db, d), id).Some?
            && var s := RoomAt(After(db, d), id).value;
              && s.owner == d.actor && s.activeHand == [] && s.lastHand == []
              && s.seats == [R.RoomSeat(d.actor, false), R.RoomSeat([], false), R.RoomSeat([], false)]
  {
    EveryReachableStoreIsConsistent(ds);
    var db := Reachable.Run(EMPTY_DATABASE, ds);
    var e, claimed, tx, events := AcceptedEffect(db, d);
    MadeRoom(e, claimed, d.env.commitOf, tx, After(db, d), events);
  }

  lemma MadeRoom(e: Effect, claimed: Database, commitOf: H.CommitFunction, tx: Database, later: Database,
                 events: seq<Event>)
    requires e.RoomMade? && Caused(e, claimed, commitOf, tx, events) && Loadable(later) && later.rooms == tx.rooms
    ensures e.s'.id !in claimed.rooms && RoomAt(later, e.s'.id) == Some(e.s')
    ensures e.s'.activeHand == [] && e.s'.lastHand == []
    ensures e.s'.seats == [R.RoomSeat(e.s'.owner, false), R.RoomSeat([], false), R.RoomSeat([], false)]
  {
    RoomMeaning.CreatingSeatsOwner(e.s'.id, e.s'.owner);
    RoomRowLoads(later, e.s'.id, e.s');
  }

  /** After an accepted ending the stored room is free, with everyone seated as before, and it names the hand as its
      last one exactly if the hand had been dealt. */
  lemma {:induction false} EndingFreesRoom(ds: seq<Delivery>, d: Delivery)
    requires Hashing(ds) && H.NeverZero(d.env.commitOf) && EndingOperation(d.op)
    requires NewlyAccepted(Reply(Reachable.Run(EMPTY_DATABASE, ds), d))
    ensures var db, hand := Reachable.Run(EMPTY_DATABASE, ds), d.command.aggregateId;
            && HandAt(db, hand).Some? && RoomAt(db, HandAt(db, hand).value.roomId).Some?
            && RoomAt(After(db, d), HandAt(db, hand).value.roomId).Some?
            && var h := HandAt(db, hand).value;
              var s, s' := RoomAt(db, h.roomId).value, RoomAt(After(db, d), h.roomId).value;
              && s.activeHand == hand && s'.activeHand == [] && s'.seats == s.seats
              && s'.lastHand == (if h.phase in {H.Bidding, H.Playing, H.Settling} then hand else [])
  {
    EveryReachableStoreIsConsistent(ds);
    var db := Reachable.Run(EMPTY_DATABASE, ds);
    var e, claimed, tx, events := AcceptedEffect(db, d);
    IntendedEnding(e, d, Bound(d.command, d.op, d.env));
    EndedRoom(e, db, claimed, d.env.commitOf, tx, After(db, d), events);
  }

  lemma IntendedEnding(e: Effect, d: Delivery, command: Command)
    requires EndingOperation(d.op) && Intended(e, d.actor, command, d.op, d.env)
    ensures e.HandEnded? && e.archived == InLivePlay(e.h.phase)
  {
  }

  lemma EndedRoom(e: Effect, db: Database, claimed: Database, commitOf: H.CommitFunction, tx: Database,
                  later: Database, events: seq<Event>)
    requires e.HandEnded? && Caused(e, claimed, commitOf, tx, events) && claimed == db.(ledger := claimed.ledger)
    requires Loadable(db) && Loadable(later) && later.rooms == tx.rooms
    ensures HandAt(db, e.h.id) == Some(e.h) && e.h'.id == e.h.id && RoomAt(db, e.h.roomId) == Some(e.s)
    ensures RoomAt(later, e.h.roomId) == Some(e.s') && e.s.activeHand == e.h.id && e.s'.activeHand == []
    ensures e.s'.seats == e.s.seats && e.s'.lastHand == if e.archived then e.h.id else []
  {
    EffectKeepsNames(e, claimed, commitOf, tx, events);
    RoomMeaning.FinishingFreesRoom(e.s, e.h.id, e.s.version, e.archived);
    RoomRowLoads(later, e.s.id, e.s');
  }
}
