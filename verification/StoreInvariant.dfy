/** Rooms and hands stay sound and tied to each other, and the outbox stays gap-free, in every reachable store. */
module StoreInvariant {
  import opened Bytes
  import opened Text
  import opened Domain
  import opened Store
  import opened Handlers
  import opened Service
  import opened Effects
  import opened Outbox
  import opened HandLemmas
  import R = RoomModel
  import H = HandModel

  ghost predicate Every<K(!new), T(!new)>(rows: map<K, T>, fine: (K, T) -> bool) {
    forall k :: k in rows ==> fine(k, rows[k])
  }

  lemma EveryAfterWrite<K(!new), T(!new)>(rows: map<K, T>, fine: (K, T) -> bool, k: K, row: T)
    requires Every(rows, fine) && fine(k, row)
    ensures Every(rows[k := row], fine)
  {
  }

  predicate RoomRowFine(k: Text, t: R.RoomSnapshot) {
    t.id == k && R.Restorable(t)
  }

  predicate HandRowFine(k: Text, t: H.HandSnapshot) {
    t.body.id == k && H.Restorable(t)
  }

  /** Every stored row can be loaded again, under its own key. */
  ghost predicate Loadable(db: Database) {
    Every(db.rooms, RoomRowFine) && Every(db.hands, HandRowFine)
  }

  lemma LoadableIsKeyed(db: Database)
    requires Loadable(db)
    ensures Keyed(db)
  {
    forall k | k in db.rooms ensures db.rooms[k].id == k {
      assert RoomRowFine(k, db.rooms[k]);
    }
    forall k | k in db.hands ensures db.hands[k].body.id == k {
      assert HandRowFine(k, db.hands[k]);
    }
  }

  predicate ActiveOn(db: Database, room: Text, hand: Text) {
    room in db.rooms && db.rooms[room].status == R.HandActive && db.rooms[room].activeHand == hand
  }

  predicate LiveIn(db: Database, room: Text, hand: Text) {
    hand in db.hands && db.hands[hand].body.roomId == room && !H.Terminal(db.hands[hand].body.phase)
  }

  /** The hand's three players are the room's, seat by seat. */
  predicate SameSeats(t: R.RoomSnapshot, h: H.HandSnapshot) {
    forall i :: 0 <= i < 3 ==> h.body.seats[i] == H.HandSeat(i + 1, t.seats[i].account)
  }

  /** The room is active on the hand exactly when the hand is live in it, and then they agree on the seats. */
  ghost predicate LinkedAt(db: Database, room: Text, hand: Text) {
    && (ActiveOn(db, room, hand) <==> LiveIn(db, room, hand))
    && (ActiveOn(db, room, hand) ==> SameSeats(db.rooms[room], db.hands[hand]))
  }

  ghost predicate Linked(db: Database) {
    forall room, hand :: LinkedAt(db, room, hand)
  }

  function VersionIn(db: Database, aggregate: AggregateType, id: Text): nat {
    match aggregate
    case AggregateRoom => if id in db.rooms then db.rooms[id].version else 0
    case AggregateHand => if id in db.hands then db.hands[id].body.version else 0
  }

  /** Each aggregate's events carry the versions 1, 2, ... up to the stored one. */
  ghost predicate GapFree(outbox: seq<OutboxEvent>, db: Database) {
    forall aggregate, id :: VersionsOf(outbox, aggregate, id) == UpTo(VersionIn(db, aggregate, id))
  }

  /** Two hands live in one room are the same hand. */
  lemma OneLiveHandPerRoom(db: Database, room: Text, h1: Text, h2: Text)
    requires Linked(db) && LiveIn(db, room, h1) && LiveIn(db, room, h2)
    ensures h1 == h2
  {
    assert LinkedAt(db, room, h1) && LinkedAt(db, room, h2);
  }

  // ------------------------------------------------------------------ effects keep rows loadable

  predicate NamedActor(e: Effect) {
    e.RoomChanged? ==> R.ActorNamed(e.a)
  }

  lemma RoomRow(s: R.RoomState)
    requires R.Invariant(s)
    ensures R.Restorable(R.Snapshot(s)) && R.Restore(R.Snapshot(s)) == Ok(s)
  {
    R.SoundIffInvariant(s);
  }

  lemma HandRow(h: H.HandState)
    requires H.Invariant(h)
    ensures H.Restorable(H.Snapshot(h)) && H.Restore(H.Snapshot(h)) == Ok(h)
  {
    H.SoundIffInvariant(h);
  }

  lemma RoomLoaded(t: R.RoomSnapshot)
    requires R.Restore(t).Ok?
    ensures var s := R.Restore(t).value;
            R.Invariant(s) && s.id == t.id && s.status == t.status && s.activeHand == t.activeHand
                && s.version == t.version
    ensures forall i :: 0 <= i < 3 ==> R.Restore(t).value.seats[i].account == t.seats[i].account
  {
    var s := R.Restore(t).value;
    assert R.SeatAcceptable(t.seats, 0) && R.SeatAcceptable(t.seats, 1) && R.SeatAcceptable(t.seats, 2);
    assert R.SeatFine(s.seats, 0) && R.SeatFine(s.seats, 1) && R.SeatFine(s.seats, 2);
  }

  lemma HandLoaded(t: H.HandSnapshot)
    requires H.Restore(t).Ok?
    ensures var h := H.Restore(t).value;
            && H.Invariant(h) && h.id == t.body.id && h.roomId == t.body.roomId && h.phase == t.body.phase
            && h.seats == t.body.seats && h.version == t.body.version
  {
    assert H.ValidSetup(H.Rebuilt(t)) <==> H.ValidSetup(t.body);
  }

  /** What is to be known of the new rows. */
  ghost predicate NewRowsFine(e: Effect) {
    && (NewRoom(e).Some? ==> R.Invariant(NewRoom(e).value))
    && (NewHand(e).Some? ==> H.Invariant(NewHand(e).value))
  }

  /** An unnamed actor is not the owner, who has a valid identifier. */
  lemma OwnerIsNamed(s: R.RoomState, actor: Text, hand: Text)
    requires R.Invariant(s) && R.StartHand(s, actor, hand, s.version).Done?
    ensures R.Invariant(R.StartHand(s, actor, hand, s.version).state)
  {
    BlankIsEmpty();
    R.TransitionsKeepInvariant(s, R.StartHandAction(actor, hand, s.version));
  }

  lemma RoomEffectsMakeFineRows(e: Effect, db: Database, commitOf: H.CommitFunction, tx: Database, events: seq<Event>)
    requires (e.RoomMade? || e.RoomChanged?) && Caused(e, db, commitOf, tx, events) && NamedActor(e)
    ensures R.Invariant(e.s')
  {
    match e
    case RoomMade(s') =>
      R.NewRoomIsSound(s'.id, s'.owner);
      R.SoundIffInvariant(s');
    case RoomChanged(s, a, s') =>
      RoomLoaded(db.rooms[s.id]);
      R.TransitionsKeepInvariant(s, a);
  }

  lemma StartingMakesFineRoom(e: Effect, db: Database, commitOf: H.CommitFunction, tx: Database, events: seq<Event>)
    requires e.HandStarted? && Caused(e, db, commitOf, tx, events)
    ensures R.Invariant(e.s')
  {
    RoomLoaded(db.rooms[e.s.id]);
    OwnerIsNamed(e.s, e.actor, e.h'.id);
  }

  lemma StartingMakesFineHand(e: Effect, db: Database, commitOf: H.CommitFunction, tx: Database, events: seq<Event>)
    requires e.HandStarted? && Caused(e, db, commitOf, tx, events)
    ensures H.Invariant(e.h')
  {
    var h' := e.h';
    NewHandIsSound(h'.mode, h'.id, e.s.id, HandSeats(e.s'), h'.serverCommitment, h'.revealKeyId, h'.plan,
                   h'.revealPublicKey, h'.revealKeyBoundAt);
    H.SoundIffInvariant(h');
  }

  lemma HandEffectsMakeFineHand(e: Effect, db: Database, commitOf: H.CommitFunction, tx: Database, events: seq<Event>)
    requires (e.HandChanged? || e.HandEnded?) && Caused(e, db, commitOf, tx, events) && H.NeverZero(commitOf)
    ensures H.Invariant(e.h')
  {
    HandLoaded(db.hands[e.h.id]);
    TransitionsKeepInvariant(e.h, commitOf, e.act);
  }

  lemma FinishingMakesFineRoom(e: Effect, db: Database, commitOf: H.CommitFunction, tx: Database, events: seq<Event>)
    requires e.HandEnded? && Caused(e, db, commitOf, tx, events)
    ensures R.Invariant(e.s')
  {
    RoomLoaded(db.rooms[e.s.id]);
    R.TransitionsKeepInvariant(e.s, R.FinishHandAction(e.h.id, e.s.version, e.archived));
  }

  lemma EffectsMakeFineRows(e: Effect, db: Database, commitOf: H.CommitFunction, tx: Database, events: seq<Event>)
    requires Caused(e, db, commitOf, tx, events) && NamedActor(e) && H.NeverZero(commitOf)
    ensures NewRowsFine(e)
  {
    if e.HandStarted? {
      StartingMakesFineRoom(e, db, commitOf, tx, events);
      StartingMakesFineHand(e, db, commitOf, tx, events);
    } else if e.HandChanged? {
      HandEffectsMakeFineHand(e, db, commitOf, tx, events);
    } else if e.HandEnded? {
      HandEffectsMakeFineHand(e, db, commitOf, tx, events);
      FinishingMakesFineRoom(e, db, commitOf, tx, events);
    } else {
      RoomEffectsMakeFineRows(e, db, commitOf, tx, events);
    }
  }

  lemma EffectsKeepLoadable(e: Effect, db: Database, commitOf: H.CommitFunction, tx: Database, events: seq<Event>)
    requires Loadable(db) && Caused(e, db, commitOf, tx, events) && NamedActor(e) && H.NeverZero(commitOf)
    ensures Loadable(tx)
  {
    WrittenRows(e, db, commitOf, tx, events);
    EffectsMakeFineRows(e, db, commitOf, tx, events);
    RowsKeepLoadable(db, tx, NewRoom(e), NewHand(e));
  }

  lemma RowsKeepLoadable(db: Database, tx: Database, room: Option<R.RoomState>, hand: Option<H.HandState>)
    requires Loadable(db) && (room.Some? ==> R.Invariant(room.value)) && (hand.Some? ==> H.Invariant(hand.value))
    requires tx.rooms == if room.Some? then db.rooms[room.value.id := R.Snapshot(room.value)] else db.rooms
    requires tx.hands == if hand.Some? then db.hands[hand.value.id := H.Snapshot(hand.value)] else db.hands
    ensures Loadable(tx)
  {
    if room.Some? {
      RoomRow(room.value);
      EveryAfterWrite(db.rooms, RoomRowFine, room.value.id, R.Snapshot(room.value));
    }
    if hand.Some? {
      HandRow(hand.value);
      EveryAfterWrite(db.hands, HandRowFine, hand.value.id, H.Snapshot(hand.value));
    }
  }

  /** The room an effect writes, if any. */
  function NewRoom(e: Effect): Option<R.RoomState> {
    match e
    case RoomMade(s') => Some(s')
    case RoomChanged(_, _, s') => Some(s')
    case HandStarted(_, _, s', _, _, _) => Some(s')
    case HandChanged(_, _, _) => None
    case HandEnded(_, _, _, _, s', _, _, _) => Some(s')
  }

  /** The hand an effect writes, if any. */
  function NewHand(e: Effect): Option<H.HandState> {
    match e
    case RoomMade(_) => None
    case RoomChanged(_, _, _) => None
    case HandStarted(_, _, _, h', _, _) => Some(h')
    case HandChanged(_, _, h') => Some(h')
    case HandEnded(_, _, h', _, _, _, _, _) => Some(h')
  }

  /** The rows an effect writes are those and no others. */
  lemma WrittenRows(e: Effect, db: Database, commitOf: H.CommitFunction, tx: Database, events: seq<Event>)
    requires Caused(e, db, commitOf, tx, events)
    ensures tx.rooms == if NewRoom(e).Some? then db.rooms[NewRoom(e).value.id := R.Snapshot(NewRoom(e).value)]
            else db.rooms
    ensures tx.hands == if NewHand(e).Some? then db.hands[NewHand(e).value.id := H.Snapshot(NewHand(e).value)]
            else db.hands
    ensures SameBooks(db, tx)
  {
    match e
    case RoomMade(_) =>
    case RoomChanged(s, a, s') => R.OneEventPerTransition(s, a);
    case HandStarted(s, actor, s', h', _, _) => R.StartHandEvent(s, actor, h'.id, s.version);
    case HandChanged(h, act, h') => EventsAreNumbered(h, commitOf, act);
    case HandEnded(h, act, h', s, s', archived, _, _) =>
      EventsAreNumbered(h, commitOf, act);
      R.FinishHandEvent(s, h.id, s.version, archived);
  }

  // ------------------------------------------------------------------ effects keep rooms and hands linked

  lemma OrdinaryKeepsInactive(s: R.RoomState, a: R.RoomAction)
    requires R.Invariant(s) && OrdinaryRoomAction(a) && R.Apply(s, a).Done?
    ensures s.status != R.HandActive && R.Apply(s, a).state.status != R.HandActive && R.Apply(s, a).state.id == s.id
  {
    R.OneEventPerTransition(s, a);
    if s.status == R.HandActive {
      R.ActiveHandBlocksTheRest(s, a);
    } else {
      R.OnlyStartActivates(s, a);
    }
  }

  /** A live hand that stays live in the same room with the same seats. */
  predicate StaysLive(h: H.HandState, h': H.HandState) {
    !H.Terminal(h.phase) && !H.Terminal(h'.phase) && h'.id == h.id && h'.roomId == h.roomId && h'.seats == h.seats
  }

  lemma ContributionsStayLive(h: H.HandState, commitOf: H.CommitFunction, act: H.HandAction)
    requires H.IsContribution(act) && H.Apply(h, commitOf, act).Done?
    ensures StaysLive(h, H.Apply(h, commitOf, act).state)
  {
    match act
    case CommitAction(actor, commitment, expected) => CommitIsStep(h, actor, commitment, expected);
    case RevealAction(actor, digest, ref, expected) => RevealIsStep(h, commitOf, actor, digest, ref, expected);
    case CustodiedAction(actor, digest, ref, expected) => CustodiedIsStep(h, commitOf, actor, digest, ref, expected);
  }

  /** Actions that do not end a hand leave it live. */
  lemma NonEndingStaysLive(h: H.HandState, commitOf: H.CommitFunction, act: H.HandAction)
    requires !EndingAction(act) && H.Apply(h, commitOf, act).Done?
    ensures StaysLive(h, H.Apply(h, commitOf, act).state)
  {
    match act
    case LockAction(value, expected) =>
    case DealtAction(expected) =>
    case PlayAction(expected) =>
    case SettleAction(expected) =>
    case _ => ContributionsStayLive(h, commitOf, act);
  }

  lemma RoomRowKeepsLink(db: Database, tx: Database, t: R.RoomSnapshot)
    requires Linked(db) && tx == db.(rooms := db.rooms[t.id := t]) && t.status != R.HandActive
    requires t.id in db.rooms ==> db.rooms[t.id].status != R.HandActive
    ensures Linked(tx)
  {
    forall room, hand ensures LinkedAt(tx, room, hand) {
      assert LinkedAt(db, room, hand);
    }
  }

  lemma StartKeepsLink(db: Database, tx: Database, t: R.RoomSnapshot, h: H.HandSnapshot)
    requires Linked(db) && tx == db.(rooms := db.rooms[t.id := t], hands := db.hands[h.body.id := h])
    requires t.id in db.rooms && db.rooms[t.id].status != R.HandActive && h.body.id !in db.hands
    requires t.status == R.HandActive && t.activeHand == h.body.id
    requires h.body.roomId == t.id && !H.Terminal(h.body.phase) && SameSeats(t, h)
    ensures Linked(tx)
  {
    forall room, hand ensures LinkedAt(tx, room, hand) {
      assert LinkedAt(db, room, hand);
    }
  }

  lemma HandRowKeepsLink(db: Database, tx: Database, h: H.HandSnapshot)
    requires Linked(db) && tx == db.(hands := db.hands[h.body.id := h], records := tx.records)
    requires h.body.id in db.hands && !H.Terminal(db.hands[h.body.id].body.phase) && !H.Terminal(h.body.phase)
    requires h.body.roomId == db.hands[h.body.id].body.roomId && h.body.seats == db.hands[h.body.id].body.seats
    ensures Linked(tx)
  {
    forall room, hand ensures LinkedAt(tx, room, hand) {
      assert LinkedAt(db, room, hand);
    }
  }

  lemma EndingKeepsLink(db: Database, tx: Database, t: R.RoomSnapshot, h: H.HandSnapshot)
    requires Linked(db) && tx == db.(rooms := db.rooms[t.id := t], hands := db.hands[h.body.id := h], live := tx.live)
    requires ActiveOn(db, t.id, h.body.id) && t.status != R.HandActive && H.Terminal(h.body.phase)
    ensures Linked(tx)
  {
    assert LinkedAt(db, t.id, h.body.id);
    forall room, hand ensures LinkedAt(tx, room, hand) {
      assert LinkedAt(db, room, hand);
    }
  }

  lemma RoomEffectsKeepLinked(e: Effect, db: Database, commitOf: H.CommitFunction, tx: Database, events: seq<Event>)
    requires e.RoomMade? || e.RoomChanged?
    requires Linked(db) && Caused(e, db, commitOf, tx, events)
    ensures Linked(tx)
  {
    match e
    case RoomMade(s') =>
      RoomRowKeepsLink(db, tx, R.Snapshot(s'));
    case RoomChanged(s, a, s') =>
      RoomLoaded(db.rooms[s.id]);
      OrdinaryKeepsInactive(s, a);
      RoomRowKeepsLink(db, tx, R.Snapshot(s'));
  }

  lemma NewHandShape(mode: H.FairnessMode, id: Text, roomId: Text, seats: H.ThreeHandSeats, serverCommitment: Block,
                     revealKeyId: Text, plan: H.BeaconPlan, publicKey: Block, boundAt: nat)
    requires H.NewHand(mode, id, roomId, seats, serverCommitment, revealKeyId, plan, publicKey, boundAt).Done?
    ensures var h := H.NewHand(mode, id, roomId, seats, serverCommitment, revealKeyId, plan, publicKey, boundAt).state;
            h.id == id && h.roomId == roomId && h.seats == seats && h.phase == H.Committing
  {
  }

  /** The rows written when a hand starts. */
  lemma StartedRows(e: Effect, db: Database, commitOf: H.CommitFunction, tx: Database, events: seq<Event>)
    requires e.HandStarted? && Caused(e, db, commitOf, tx, events)
    ensures e.s'.id == e.s.id && e.s'.status == R.HandActive && e.s'.activeHand == e.h'.id && e.s.status == R.Ready
    ensures e.h'.roomId == e.s.id && !H.Terminal(e.h'.phase) && e.h'.seats == HandSeats(e.s')
  {
    var h' := e.h';
    R.StartHandEvent(e.s, e.actor, h'.id, e.s.version);
    NewHandShape(h'.mode, h'.id, e.s.id, HandSeats(e.s'), h'.serverCommitment, h'.revealKeyId, h'.plan,
                 h'.revealPublicKey, h'.revealKeyBoundAt);
  }

  lemma StartingKeepsLinked(e: Effect, db: Database, commitOf: H.CommitFunction, tx: Database, events: seq<Event>)
    requires e.HandStarted? && Linked(db) && Caused(e, db, commitOf, tx, events)
    ensures Linked(tx)
  {
    RoomLoaded(db.rooms[e.s.id]);
    StartedRows(e, db, commitOf, tx, events);
    StartKeepsLink(db, tx, R.Snapshot(e.s'), H.Snapshot(e.h'));
  }

  lemma ChangingKeepsLinked(e: Effect, db: Database, commitOf: H.CommitFunction, tx: Database, events: seq<Event>)
    requires e.HandChanged? && Linked(db) && Caused(e, db, commitOf, tx, events)
    ensures Linked(tx)
  {
    HandLoaded(db.hands[e.h.id]);
    NonEndingStaysLive(e.h, commitOf, e.act);
    HandRowKeepsLink(db, tx, H.Snapshot(e.h'));
  }

  lemma FinishingKeepsLinked(e: Effect, db: Database, commitOf: H.CommitFunction, tx: Database, events: seq<Event>)
    requires e.HandEnded? && Linked(db) && Caused(e, db, commitOf, tx, events)
    ensures Linked(tx)
  {
    RoomLoaded(db.rooms[e.s.id]);
    R.FinishHandEvent(e.s, e.h.id, e.s.version, e.archived);
    EventsAreNumbered(e.h, commitOf, e.act);
    EndingKeepsLink(db, tx, R.Snapshot(e.s'), H.Snapshot(e.h'));
  }

  lemma EffectsKeepLinked(e: Effect, db: Database, commitOf: H.CommitFunction, tx: Database, events: seq<Event>)
    requires Linked(db) && Caused(e, db, commitOf, tx, events)
    ensures Linked(tx)
  {
    if e.HandStarted? {
      StartingKeepsLinked(e, db, commitOf, tx, events);
    } else if e.HandChanged? {
      ChangingKeepsLinked(e, db, commitOf, tx, events);
    } else if e.HandEnded? {
      FinishingKeepsLinked(e, db, commitOf, tx, events);
    } else {
      RoomEffectsKeepLinked(e, db, commitOf, tx, events);
    }
  }

  /** In a linked store the room of a live hand always lets itself be released: the error that release may
      meet cannot occur. */
  lemma ReleaseNeverFails(db: Database, hand: Text, archived: bool)
    requires Loadable(db) && Linked(db) && hand in db.hands && !H.Terminal(db.hands[hand].body.phase)
    ensures var room := db.hands[hand].body.roomId;
            room in db.rooms && db.rooms[room].id == room && R.Restore(db.rooms[room]).Ok?
                && R.FinishHand(R.Restore(db.rooms[room]).value, hand, db.rooms[room].version, archived).Done?
  {
    var room := db.hands[hand].body.roomId;
    assert LinkedAt(db, room, hand);
    RoomLoaded(db.rooms[room]);
    HandLoaded(db.hands[hand]);
  }

  // ------------------------------------------------------------------ effects keep the outbox gap-free

  /** `db` is `before` with another version of one aggregate. */
  ghost predicate Moved(before: Database, db: Database, aggregate: AggregateType, id: Text, to: nat) {
    forall a, i :: VersionIn(db, a, i) == if (a, i) == (aggregate, id) then to else VersionIn(before, a, i)
  }

  lemma RoomMoved(before: Database, db: Database, s: R.RoomState)
    requires db.rooms == before.rooms[s.id := R.Snapshot(s)] && db.hands == before.hands
    ensures Moved(before, db, AggregateRoom, s.id, s.version)
  {
  }

  lemma HandMoved(before: Database, db: Database, h: H.HandState)
    requires db.hands == before.hands[h.id := H.Snapshot(h)] && db.rooms == before.rooms
    ensures Moved(before, db, AggregateHand, h.id, h.version)
  {
  }

  /** A numbered batch keeps the log gap-free when the aggregate's version moves with it. */
  lemma BatchKeepsGapFree(outbox: seq<OutboxEvent>, events: seq<Event>, actor: Text, causation: Text,
                          before: Database, db: Database, aggregate: AggregateType, id: Text)
    requires GapFree(outbox, before) && Numbered(events, aggregate, id, VersionIn(before, aggregate, id))
    requires Moved(before, db, aggregate, id, VersionIn(before, aggregate, id) + |events|)
    ensures GapFree(outbox + OutboxOf(events, actor, causation), db)
  {
    var from := VersionIn(before, aggregate, id);
    forall a, i ensures VersionsOf(outbox + OutboxOf(events, actor, causation), a, i) == UpTo(VersionIn(db, a, i)) {
      AppendNumbered(outbox, events, actor, causation, aggregate, id, from, a, i);
    }
  }

  /** Two batches: a room's and a hand's, in either order. */
  lemma TwoBatchesKeepGapFree(outbox: seq<OutboxEvent>, first: seq<Event>, second: seq<Event>, actor: Text,
                              causation: Text, before: Database, between: Database, db: Database,
                              aggregate: AggregateType, id: Text, other: AggregateType, otherId: Text)
    requires GapFree(outbox, before)
    requires Numbered(first, aggregate, id, VersionIn(before, aggregate, id))
    requires Numbered(second, other, otherId, VersionIn(between, other, otherId))
    requires Moved(before, between, aggregate, id, VersionIn(before, aggregate, id) + |first|)
    requires Moved(between, db, other, otherId, VersionIn(between, other, otherId) + |second|)
    ensures GapFree(outbox + OutboxOf(first + second, actor, causation), db)
  {
    var now := outbox + OutboxOf(first, actor, causation);
    BatchKeepsGapFree(outbox, first, actor, causation, before, between, aggregate, id);
    BatchKeepsGapFree(now, second, actor, causation, between, db, other, otherId);
    BatchesAppend(first, second, actor, causation);
    assert now + OutboxOf(second, actor, causation) == outbox + OutboxOf(first + second, actor, causation);
  }

  lemma RoomEffectsKeepGapFree(e: Effect, db: Database, commitOf: H.CommitFunction, tx: Database, events: seq<Event>,
                               actor: Text, causation: Text)
    requires (e.RoomMade? || e.RoomChanged?) && GapFree(db.outbox, db) && Caused(e, db, commitOf, tx, events)
    ensures GapFree(db.outbox + OutboxOf(events, actor, causation), tx)
    ensures RoomChanges(RefsOf(events)) == 1
  {
    if e.RoomMade? {
      R.NewRoomIsSound(e.s'.id, e.s'.owner);
    } else {
      R.OneEventPerTransition(e.s, e.a);
      RoomLoaded(db.rooms[e.s.id]);
    }
    RoomMoved(db, tx, e.s');
    BatchKeepsGapFree(db.outbox, events, actor, causation, db, tx, AggregateRoom, e.s'.id);
    RoomChangesOfBatch(events, AggregateRoom, e.s'.id, VersionIn(db, AggregateRoom, e.s'.id));
  }

  lemma StartingKeepsGapFree(e: Effect, db: Database, commitOf: H.CommitFunction, tx: Database, events: seq<Event>,
                             actor: Text, causation: Text)
    requires e.HandStarted? && GapFree(db.outbox, db) && Caused(e, db, commitOf, tx, events)
    ensures GapFree(db.outbox + OutboxOf(events, actor, causation), tx)
    ensures RoomChanges(RefsOf(events)) == 1
  {
    var s', h' := e.s', e.h';
    RoomLoaded(db.rooms[e.s.id]);
    R.StartHandEvent(e.s, e.actor, h'.id, e.s.version);
    FirstHandEvent(h'.mode, h'.id, e.s.id, HandSeats(s'), h'.serverCommitment, h'.revealKeyId, h'.plan,
                   h'.revealPublicKey, h'.revealKeyBoundAt);
    var between := db.(rooms := tx.rooms);
    RoomMoved(db, between, s');
    HandMoved(between, tx, h');
    TwoBatchesKeepGapFree(db.outbox, e.roomEvents, e.handEvents, actor, causation, db, between, tx, AggregateRoom,
                          s'.id, AggregateHand, h'.id);
    TwoBatchesChangeOneRoom(e.roomEvents, e.handEvents, AggregateRoom, s'.id, e.s.version, AggregateHand, h'.id, 0);
  }

  lemma FirstHandEvent(mode: H.FairnessMode, id: Text, roomId: Text, seats: H.ThreeHandSeats, serverCommitment: Block,
                       revealKeyId: Text, plan: H.BeaconPlan, publicKey: Block, boundAt: nat)
    requires H.NewHand(mode, id, roomId, seats, serverCommitment, revealKeyId, plan, publicKey, boundAt).Done?
    ensures var t := H.NewHand(mode, id, roomId, seats, serverCommitment, revealKeyId, plan, publicKey, boundAt);
            t.events == [Event(AggregateHand, id, HandCreated, 1)] && t.state.version == 1
  {
  }

  lemma TwoBatchesChangeOneRoom(first: seq<Event>, second: seq<Event>, aggregate: AggregateType, id: Text, from: nat,
                                other: AggregateType, otherId: Text, otherFrom: nat)
    requires Numbered(first, aggregate, id, from) && Numbered(second, other, otherId, otherFrom)
    requires aggregate != other && |if aggregate == AggregateRoom then first else second| == 1
    ensures RoomChanges(RefsOf(first + second)) == 1
  {
    RefsAppend(first, second);
    RoomChangesOfAppend(RefsOf(first), RefsOf(second));
    RoomChangesOfBatch(first, aggregate, id, from);
    RoomChangesOfBatch(second, other, otherId, otherFrom);
  }

  lemma ChangingKeepsGapFree(e: Effect, db: Database, commitOf: H.CommitFunction, tx: Database, events: seq<Event>,
                             actor: Text, causation: Text)
    requires e.HandChanged? && GapFree(db.outbox, db) && Caused(e, db, commitOf, tx, events)
    ensures GapFree(db.outbox + OutboxOf(events, actor, causation), tx)
    ensures RoomChanges(RefsOf(events)) == 0
  {
    HandLoaded(db.hands[e.h.id]);
    EventsAreNumbered(e.h, commitOf, e.act);
    HandMoved(db, tx, e.h');
    BatchKeepsGapFree(db.outbox, events, actor, causation, db, tx, AggregateHand, e.h'.id);
    RoomChangesOfBatch(events, AggregateHand, e.h'.id, e.h.version);
  }

  lemma FinishingKeepsGapFree(e: Effect, db: Database, commitOf: H.CommitFunction, tx: Database, events: seq<Event>,
                              actor: Text, causation: Text)
    requires e.HandEnded? && GapFree(db.outbox, db) && Caused(e, db, commitOf, tx, events)
    ensures GapFree(db.outbox + OutboxOf(events, actor, causation), tx)
    ensures RoomChanges(RefsOf(events)) == 1
  {
    HandLoaded(db.hands[e.h.id]);
    RoomLoaded(db.rooms[e.s.id]);
    EventsAreNumbered(e.h, commitOf, e.act);
    R.FinishHandEvent(e.s, e.h.id, e.s.version, e.archived);
    var between := db.(hands := tx.hands);
    HandMoved(db, between, e.h');
    RoomMoved(between, tx, e.s');
    TwoBatchesKeepGapFree(db.outbox, e.handEvents, e.roomEvents, actor, causation, db, between, tx, AggregateHand,
                          e.h'.id, AggregateRoom, e.s'.id);
    TwoBatchesChangeOneRoom(e.handEvents, e.roomEvents, AggregateHand, e.h'.id, e.h.version, AggregateRoom, e.s'.id,
                            e.s.version);
  }

  lemma EffectsKeepGapFree(e: Effect, db: Database, commitOf: H.CommitFunction, tx: Database, events: seq<Event>,
                           actor: Text, causation: Text)
    requires GapFree(db.outbox, db) && Caused(e, db, commitOf, tx, events)
    ensures GapFree(db.outbox + OutboxOf(events, actor, causation), tx)
    ensures RoomChanges(RefsOf(events)) == if e.HandChanged? then 0 else 1
  {
    if e.HandStarted? {
      StartingKeepsGapFree(e, db, commitOf, tx, events, actor, causation);
    } else if e.HandChanged? {
      ChangingKeepsGapFree(e, db, commitOf, tx, events, actor, causation);
    } else if e.HandEnded? {
      FinishingKeepsGapFree(e, db, commitOf, tx, events, actor, causation);
    } else {
      RoomEffectsKeepGapFree(e, db, commitOf, tx, events, actor, causation);
    }
  }

  /** The version replied is the stored one. */
  lemma SubjectIsStored(e: Effect, db: Database, commitOf: H.CommitFunction, tx: Database, events: seq<Event>)
    requires Caused(e, db, commitOf, tx, events)
    ensures var (aggregate, id, version) := Subject(e); VersionIn(tx, aggregate, id) == version > 0
  {
    match e
    case RoomMade(s') => R.NewRoomIsSound(s'.id, s'.owner);
    case RoomChanged(s, a, s') => R.OneEventPerTransition(s, a);
    case HandStarted(s, actor, s', h', _, _) => R.StartHandEvent(s, actor, h'.id, s.version);
    case HandChanged(h, act, h') => EventsAreNumbered(h, commitOf, act);
    case HandEnded(h, act, h', s, s', archived, _, _) => EventsAreNumbered(h, commitOf, act);
  }
}
