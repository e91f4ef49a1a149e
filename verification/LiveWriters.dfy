/** The processes that write live actions: how each comes to hold an epoch of a hand's writer row, and what
    becomes of its actions when the hand expires. */
module LiveWriters {
  import opened Bytes
  import opened Text
  import opened Domain
  import opened Store
  import opened Handlers
  import opened Service
  import opened Effects
  import opened StoreInvariant
  import opened Ledger
  import opened Reachable
  import opened Compensation
  import opened ExpiryRace
  import opened Verdict
  import opened StoredHands
  import H = HandModel

  /** One process and one hand. */
  datatype Place = Place(process: nat, hand: Text)

  /** `held` are the epochs in the processes' memories; `undo` the started deals that did not commit and are not
      taken back yet; `loaded` the hands a recovering process has read, with whether they were live then;
      `serving` the processes whose recovery is over; `admitted` the live actions past the phase check. */
  datatype World = World(
    db: Database, held: map<Place, nat>, undo: set<Place>, loaded: map<Place, bool>, serving: set<nat>,
    admitted: set<Place>)

  datatype Event =
    | Arrives(d: Delivery)
    | Deals(process: nat, d: Delivery, runtimeOk: bool)
    | Discards(p: Place)
    | Loads(p: Place)
    | TakesOver(p: Place)
    | Serves(process: nat)
    | Admits(p: Place)
    | Appends(p: Place, expected: nat)

  /** A game can be started for exactly the hands without a writer row: creating the row is part of it. */
  function Games(db: Database): Live {
    Live(db, db.live.Keys)
  }

  /** The row after an unused start is taken back: a row with actions is not deleted. */
  function Discarded(live: map<Text, LiveWriter>, hand: Text): map<Text, LiveWriter> {
    if hand in live && live[hand].committed == 1 then live - {hand} else live
  }

  /** What an event does to a world: `Commanded` leaves the service's new store, `Begun` also a new writer row
      and its epoch, and for a deal that did not commit the duty to take them back. */
  datatype Move =
    | Commanded(db: Database)
    | Begun(db: Database, place: Place, accepted: bool)
    | Local(event: Event)

  /** MarkHandDealt runs at a process, which creates the writer row outside the transaction. */
  function MoveOf(w: World, event: Event): Move {
    match event
    case Arrives(d) => Commanded(if d.op.MarkHandDealt? then w.db else Reachable.After(w.db, d))
    case Deals(process, d, runtimeOk) =>
      var sent := WithStart(Games(w.db), d, runtimeOk);
      if !d.op.MarkHandDealt? then Commanded(w.db)
      else if !Started(Games(w.db), d, runtimeOk) then Commanded(Reachable.After(w.db, sent))
      else Begun(Reachable.After(w.db, sent), Place(process, d.command.aggregateId), NewlyAccepted(Reply(w.db, sent)))
    case _ => Local(event)
  }

  /** A move; an event whose moment it is not changes nothing. */
  function Moved(w: World, m: Move): World {
    match m
    case Commanded(db) => w.(db := db)
    case Begun(db, place, accepted) =>
      w.(db := db.(live := db.live[place.hand := LiveWriter(1, 1)]), held := w.held[place := 1],
         undo := if accepted then w.undo else w.undo + {place})
    case Local(event) => Locally(w, event)
  }

  function Locally(w: World, event: Event): World {
    match event
    case Discards(p) =>
      if p !in w.undo then w
      else w.(db := w.db.(live := Discarded(w.db.live, p.hand)), held := w.held - {p}, undo := w.undo - {p})
    case Loads(p) =>
      if p.process in w.serving || p.hand !in w.db.hands then w
      else
        var phase := w.db.hands[p.hand].body.phase;
        if InLivePlay(phase) || H.Terminal(phase) then w.(loaded := w.loaded[p := InLivePlay(phase)]) else w
    case TakesOver(p) =>
      if p.process in w.serving || p !in w.loaded || !HasWriter(w.db, p.hand) then w
      else w.(db := Fence(w.db, p.hand),
              held := if w.loaded[p] then w.held[p := w.db.live[p.hand].epoch + 1] else w.held)
    case Serves(process) => w.(serving := w.serving + {process})
    case Admits(p) =>
      if p.process in w.serving && p.hand in w.db.hands && w.db.hands[p.hand].body.phase in {H.Bidding, H.Playing}
      then w.(admitted := w.admitted + {p}) else w
    case Appends(p, expected) =>
      if p in w.admitted && p in w.held then w.(db := CommitLive(w.db, p.hand, w.held[p], expected)) else w
    case _ => w
  }

  function Step(w: World, event: Event): World {
    Moved(w, MoveOf(w, event))
  }

  function Run(w: World, events: seq<Event>): World {
    if events == [] then w else Step(Run(w, events[..|events| - 1]), events[|events| - 1])
  }

  const BEGINNING := World(EMPTY_DATABASE, map[], {}, map[], {}, {})

  ghost predicate HashingEvent(event: Event) {
    (event.Arrives? || event.Deals?) ==> H.NeverZero(event.d.env.commitOf)
  }

  ghost predicate AllHashing(events: seq<Event>) {
    forall i :: 0 <= i < |events| ==> HashingEvent(events[i])
  }

  // ------------------------------------------------------------------ hands along the way

  predicate DealingOrOver(db: Database, hand: Text) {
    hand in db.hands && (db.hands[hand].body.phase == H.Dealing || H.Terminal(db.hands[hand].body.phase))
  }

  lemma FromDealing(h: H.HandState, commitOf: H.CommitFunction, act: H.HandAction)
    requires !EndingAction(act) && H.Apply(h, commitOf, act).Done?
    ensures !H.Terminal(h.phase) && (h.phase == H.Dealing ==> act.DealtAction?)
  {
    match act
    case CommitAction(actor, commitment, expected) => HandLemmas.CommitIsStep(h, actor, commitment, expected);
    case RevealAction(actor, digest, ref, expected) =>
      HandLemmas.RevealIsStep(h, commitOf, actor, digest, ref, expected);
    case CustodiedAction(actor, digest, ref, expected) =>
      HandLemmas.CustodiedIsStep(h, commitOf, actor, digest, ref, expected);
    case LockAction(_, _) =>
    case DealtAction(_) =>
    case PlayAction(_) =>
    case SettleAction(_) =>
  }

  /** An effect keeps a hand in the dealing phase or over, unless it deals that very hand; an ended hand's row
      stays as it is. */
  lemma EffectKeepsUndealt(e: Effect, db: Database, commitOf: H.CommitFunction, tx: Database, events: seq<Domain.Event>,
                           hand: Text)
    requires Caused(e, db, commitOf, tx, events) && DealingOrOver(db, hand)
    requires !(e.HandChanged? && e.act.DealtAction? && e.h.id == hand)
    ensures DealingOrOver(tx, hand)
    ensures H.Terminal(db.hands[hand].body.phase) ==> tx.hands[hand] == db.hands[hand]
  {
    WrittenRows(e, db, commitOf, tx, events);
    if e.HandChanged? {
      HandLoaded(db.hands[e.h.id]);
      FromDealing(e.h, commitOf, e.act);
      HandLemmas.EventsAreNumbered(e.h, commitOf, e.act);
    } else if e.HandEnded? {
      HandLoaded(db.hands[e.h.id]);
      EndingIsTerminal(e.h, commitOf, e.act);
    }
  }

  /** Whose hand a delivery can deal. */
  predicate MayDeal(db: Database, d: Delivery, hand: Text) {
    NewlyAccepted(Reply(db, d)) && d.op.MarkHandDealt? && d.command.aggregateId == hand
  }

  lemma IntendedDeal(e: Effect, actor: Text, command: Command, op: Operation, env: Environment)
    requires Intended(e, actor, command, op, env) && e.HandChanged? && e.act.DealtAction?
    ensures op.MarkHandDealt?
  {
  }

  lemma DeliveryKeepsUndealt(db: Database, d: Delivery, hand: Text)
    requires Consistent(db) && DealingOrOver(db, hand) && !MayDeal(db, d, hand)
    ensures DealingOrOver(Reachable.After(db, d), hand)
    ensures H.Terminal(db.hands[hand].body.phase) ==> Reachable.After(db, d).hands[hand] == db.hands[hand]
  {
    StepFollows(db, d);
    if NewlyAccepted(Reply(db, d)) {
      var command := Bound(d.command, d.op, d.env);
      var e := AcceptedDidWhatItAsks(db, d);
      var tx: Database, events :|
        && Caused(e, ClaimedBy(db, d.actor, command), d.env.commitOf, tx, events)
        && Reachable.After(db, d).rooms == tx.rooms && Reachable.After(db, d).hands == tx.hands;
      if e.HandChanged? && e.act.DealtAction? {
        IntendedDeal(e, d.actor, command, d.op, d.env);
        HandLemmas.EventsAreNumbered(e.h, d.env.commitOf, e.act);
      }
      EffectKeepsUndealt(e, ClaimedBy(db, d.actor, command), d.env.commitOf, tx, events, hand);
    }
  }

  // ------------------------------------------------------------------ what every run keeps

  /** No process holds an epoch above the row's. */
  ghost predicate HeldFits(w: World) {
    forall p :: p in w.held ==> HasWriter(w.db, p.hand) && w.held[p] <= w.db.live[p.hand].epoch
  }

  predicate Past(db: Database, hand: Text) {
    hand in db.hands && !BeforeDealing(db.hands[hand].body.phase)
  }

  /** Actions are admitted at serving processes and for dealt hands, and only dealt hands are recovered as live. */
  ghost predicate DealtFits(w: World) {
    && (forall p :: p in w.admitted ==> p.process in w.serving && Past(w.db, p.hand))
    && (forall p :: p in w.loaded && w.loaded[p] ==> Past(w.db, p.hand))
  }

  /** The row of a deal that is still to be taken back is nobody else's, and nobody can come by it. */
  ghost predicate UndoFits(w: World) {
    && (forall p :: p in w.undo ==> p in w.held && DealingOrOver(w.db, p.hand))
    && (forall p, q: Place :: p in w.undo && q.hand == p.hand ==>
          q !in w.admitted && (q in w.loaded ==> !w.loaded[q]) && (q in w.held ==> q == p))
  }

  ghost predicate Placed(w: World) {
    HeldFits(w) && DealtFits(w) && UndoFits(w)
  }

  ghost predicate Fits(w: World) {
    Consistent(w.db) && Placed(w)
  }

  /** What the service may do to a world's store: keep the rows of the writers and the dealt hands, and deal no
      hand whose start is still to be taken back. */
  ghost predicate Serviced(w: World, db: Database) {
    && WritersKept(w.db, db) && AllStayDealt(w.db, db)
    && forall p :: p in w.undo ==> DealingOrOver(db, p.hand)
  }

  /** A deal is begun on a hand in its dealing phase that has no row. */
  ghost predicate BegunFits(w: World, db: Database, place: Place, accepted: bool) {
    && !HasWriter(w.db, place.hand) && place.hand in w.db.hands && w.db.hands[place.hand].body.phase == H.Dealing
    && (!accepted ==> SameState(w.db, db))
  }

  ghost predicate MoveFits(w: World, m: Move) {
    match m
    case Commanded(db) => Serviced(w, db)
    case Begun(db, place, accepted) => Serviced(w, db) && BegunFits(w, db, place, accepted)
    case Local(_) => true
  }

  lemma CommandedPlaced(w: World, db: Database)
    requires Placed(w) && Serviced(w, db)
    ensures Placed(w.(db := db))
  {
  }

  lemma BegunHeld(w: World, db: Database, place: Place, accepted: bool)
    requires Placed(w) && Serviced(w, db) && BegunFits(w, db, place, accepted)
    ensures HeldFits(Moved(w, Begun(db, place, accepted))) && DealtFits(Moved(w, Begun(db, place, accepted)))
  {
  }

  lemma BegunUndo(w: World, db: Database, place: Place, accepted: bool)
    requires Placed(w) && Serviced(w, db) && BegunFits(w, db, place, accepted)
    ensures UndoFits(Moved(w, Begun(db, place, accepted)))
  {
    assert forall p :: p in w.undo ==> p.hand != place.hand;
  }

  lemma DiscardPlaced(w: World, p: Place)
    requires Placed(w)
    ensures Placed(Locally(w, Discards(p)))
  {
  }

  lemma LoadPlaced(w: World, p: Place)
    requires Placed(w)
    ensures Placed(Locally(w, Loads(p)))
  {
  }

  lemma TakeOverPlaced(w: World, p: Place)
    requires Placed(w)
    ensures Placed(Locally(w, TakesOver(p)))
  {
  }

  lemma AdmitPlaced(w: World, p: Place)
    requires Placed(w)
    ensures Placed(Locally(w, Admits(p)))
  {
  }

  lemma AppendPlaced(w: World, p: Place, expected: nat)
    requires Placed(w)
    ensures Placed(Locally(w, Appends(p, expected)))
  {
  }

  lemma LocallyPlaced(w: World, event: Event)
    requires Placed(w)
    ensures Placed(Locally(w, event))
  {
    match event
    case Discards(p) => DiscardPlaced(w, p);
    case Loads(p) => LoadPlaced(w, p);
    case TakesOver(p) => TakeOverPlaced(w, p);
    case Admits(p) => AdmitPlaced(w, p);
    case Appends(p, expected) => AppendPlaced(w, p, expected);
    case Serves(_) =>
    case _ =>
  }

  lemma MovedPlaced(w: World, m: Move)
    requires Placed(w) && MoveFits(w, m)
    ensures Placed(Moved(w, m))
  {
    match m
    case Commanded(db) => CommandedPlaced(w, db);
    case Begun(db, place, accepted) =>
      BegunHeld(w, db, place, accepted);
      BegunUndo(w, db, place, accepted);
    case Local(event) => LocallyPlaced(w, event);
  }

  /** The store a move ends with is the service's but for the writers' rows, at which consistency does not look. */
  lemma MovedDatabase(w: World, m: Move)
    ensures var db := if m.Local? then w.db else m.db; Moved(w, m).db == db.(live := Moved(w, m).db.live)
  {
  }

  lemma LiveRowsDoNotMatter(db: Database, live: map<Text, LiveWriter>)
    requires Consistent(db)
    ensures Consistent(db.(live := live))
  {
    SameRows(db, db.(live := live));
  }

  lemma MovedConsistent(w: World, m: Move)
    requires Consistent(if m.Local? then w.db else m.db)
    ensures Consistent(Moved(w, m).db)
  {
    MovedDatabase(w, m);
    LiveRowsDoNotMatter(if m.Local? then w.db else m.db, Moved(w, m).db.live);
  }

  // ------------------------------------------------------------------ the service's part of a move

  lemma DeliveryServices(w: World, d: Delivery)
    requires Fits(w) && H.NeverZero(d.env.commitOf) && forall p :: p in w.undo ==> !MayDeal(w.db, d, p.hand)
    ensures Consistent(Reachable.After(w.db, d)) && Serviced(w, Reachable.After(w.db, d))
  {
    StepKeepsConsistent(w.db, d.actor, d.command, d.op, d.env);
    CommandsKeepWriters(w.db, d);
    StepKeepsAllDealt(w.db, d);
    forall p | p in w.undo ensures DealingOrOver(Reachable.After(w.db, d), p.hand) {
      DeliveryKeepsUndealt(w.db, d, p.hand);
    }
  }

  /** A hand with a row cannot be dealt. */
  lemma RowForbidsDeal(w: World, d: Delivery, runtimeOk: bool)
    requires Fits(w) && d.op.MarkHandDealt? && !Started(Games(w.db), d, runtimeOk)
    ensures !NewlyAccepted(Reply(w.db, WithStart(Games(w.db), d, runtimeOk)))
  {
    if NewlyAccepted(Reply(w.db, WithStart(Games(w.db), d, runtimeOk))) {
      AcceptedDealStarted(Games(w.db), d, runtimeOk);
    }
  }

  lemma DealMayOnlyFreeHand(w: World, d: Delivery, runtimeOk: bool, hand: Text)
    requires Fits(w) && d.op.MarkHandDealt? && HasWriter(w.db, hand)
    ensures !MayDeal(w.db, WithStart(Games(w.db), d, runtimeOk), hand)
  {
    if !Started(Games(w.db), d, runtimeOk) {
      RowForbidsDeal(w, d, runtimeOk);
    }
  }

  lemma DealServices(w: World, d: Delivery, runtimeOk: bool)
    requires Fits(w) && H.NeverZero(d.env.commitOf) && d.op.MarkHandDealt?
    ensures var db := Reachable.After(w.db, WithStart(Games(w.db), d, runtimeOk)); Consistent(db) && Serviced(w, db)
  {
    var sent := WithStart(Games(w.db), d, runtimeOk);
    forall p | p in w.undo ensures !MayDeal(w.db, sent, p.hand) {
      DealMayOnlyFreeHand(w, d, runtimeOk, p.hand);
    }
    DeliveryServices(w, sent);
  }

  lemma DealBegins(w: World, process: nat, d: Delivery, runtimeOk: bool)
    requires Fits(w) && d.op.MarkHandDealt? && Started(Games(w.db), d, runtimeOk)
    ensures var sent := WithStart(Games(w.db), d, runtimeOk);
            BegunFits(w, Reachable.After(w.db, sent), Place(process, d.command.aggregateId),
                      NewlyAccepted(Reply(w.db, sent)))
  {
    StillDealing(Games(w.db), d, runtimeOk);
    StepFollows(w.db, WithStart(Games(w.db), d, runtimeOk));
  }

  lemma StayingFits(w: World)
    requires Fits(w)
    ensures Serviced(w, w.db)
  {
  }

  lemma CommandIsNoDeal(w: World, d: Delivery)
    requires !d.op.MarkHandDealt?
    ensures forall p :: p in w.undo ==> !MayDeal(w.db, d, p.hand)
  {
  }

  lemma EventMoveFits(w: World, event: Event)
    requires Fits(w) && HashingEvent(event)
    ensures MoveFits(w, MoveOf(w, event)) && (!MoveOf(w, event).Local? ==> Consistent(MoveOf(w, event).db))
  {
    if event.Arrives? && !event.d.op.MarkHandDealt? {
      CommandIsNoDeal(w, event.d);
      DeliveryServices(w, event.d);
    } else if event.Deals? && event.d.op.MarkHandDealt? {
      DealServices(w, event.d, event.runtimeOk);
      if Started(Games(w.db), event.d, event.runtimeOk) {
        DealBegins(w, event.process, event.d, event.runtimeOk);
      }
    } else {
      StayingFits(w);
    }
  }

  lemma StepFits(w: World, event: Event)
    requires Fits(w) && HashingEvent(event)
    ensures Fits(Step(w, event))
  {
    EventMoveFits(w, event);
    MovedPlaced(w, MoveOf(w, event));
    MovedConsistent(w, MoveOf(w, event));
  }

  lemma {:induction false} RunFits(w: World, events: seq<Event>)
    requires Fits(w) && AllHashing(events)
    ensures Fits(Run(w, events))
  {
    if events != [] {
      RunFits(w, events[..|events| - 1]);
      StepFits(Run(w, events[..|events| - 1]), events[|events| - 1]);
    }
  }

  // ------------------------------------------------------------------ after a hand has ended

  function RowEpoch(w: World, hand: Text): Option<nat> {
    if HasWriter(w.db, hand) then Some(w.db.live[hand].epoch) else None
  }

  /** The hand is over, and whoever still has an action past the phase check is one of `places`, serves, and holds no
      epoch above the one the row had. */
  ghost predicate Ended(w: World, hand: Text, places: set<Place>, epoch: Option<nat>) {
    && hand in w.db.hands && H.Terminal(w.db.hands[hand].body.phase)
    && (HasWriter(w.db, hand) ==> epoch.Some? && w.db.live[hand].epoch >= epoch.value)
    && (forall p :: p in w.admitted && p.hand == hand ==>
          p in places && p.process in w.serving && (p in w.held ==> epoch.Some? && w.held[p] <= epoch.value))
  }

  /** The row, if this is of one, has been fenced since it had the epoch. */
  predicate Fenced(w: World, hand: Text, epoch: Option<nat>, committed: Option<nat>) {
    committed.Some? && HasWriter(w.db, hand) ==>
      epoch.Some? && w.db.live[hand].epoch > epoch.value && w.db.live[hand].committed == committed.value
  }

  /** What stays so once a hand has ended: for good, and where a version is given also behind a fence. */
  ghost predicate Closed(w: World, hand: Text, places: set<Place>, epoch: Option<nat>, committed: Option<nat>) {
    Ended(w, hand, places, epoch) && Fenced(w, hand, epoch, committed)
  }

  lemma EndedIsTerminal(e: Effect, db: Database, commitOf: H.CommitFunction, tx: Database, events: seq<Domain.Event>)
    requires e.HandEnded? && Caused(e, db, commitOf, tx, events)
    ensures e.h'.id in tx.hands && H.Terminal(tx.hands[e.h'.id].body.phase)
  {
    WrittenRows(e, db, commitOf, tx, events);
  }

  lemma EndingEnds(db: Database, d: Delivery)
    requires Consistent(db) && H.NeverZero(d.env.commitOf) && EndingOperation(d.op) && NewlyAccepted(Reply(db, d))
    ensures d.command.aggregateId in Reachable.After(db, d).hands
    ensures H.Terminal(Reachable.After(db, d).hands[d.command.aggregateId].body.phase)
  {
    var e, claimed, tx, events := AcceptedEffect(db, d);
    EndedAsAsked(e, d, Bound(d.command, d.op, d.env), claimed, tx, events);
  }

  lemma EndedAsAsked(e: Effect, d: Delivery, command: Command, db: Database, tx: Database, events: seq<Domain.Event>)
    requires Intended(e, d.actor, command, d.op, d.env) && Subject(e).1 == d.command.aggregateId
    requires EndingOperation(d.op) && Caused(e, db, d.env.commitOf, tx, events)
    ensures d.command.aggregateId in tx.hands && H.Terminal(tx.hands[d.command.aggregateId].body.phase)
  {
    EndedIsTerminal(e, db, d.env.commitOf, tx, events);
  }

  lemma CommandArrives(w: World, d: Delivery)
    requires !d.op.MarkHandDealt?
    ensures Step(w, Arrives(d)) == w.(db := Reachable.After(w.db, d))
  {
  }

  /** Behind an ending only the places admitted before it are left, with the epochs they have. */
  lemma OnlyPlacesAreLeft(w: World, db: Database, hand: Text)
    requires Placed(w) && WritersKept(w.db, db) && hand in db.hands && H.Terminal(db.hands[hand].body.phase)
    ensures Ended(w.(db := db), hand, w.admitted, RowEpoch(w, hand))
  {
  }

  lemma EndingIsEnded(w: World, d: Delivery)
    requires Fits(w) && H.NeverZero(d.env.commitOf) && EndingOperation(d.op) && NewlyAccepted(Reply(w.db, d))
    ensures Ended(Step(w, Arrives(d)), d.command.aggregateId, w.admitted, RowEpoch(w, d.command.aggregateId))
  {
    CommandsKeepWriters(w.db, d);
    EndingEnds(w.db, d);
    CommandArrives(w, d);
    OnlyPlacesAreLeft(w, Reachable.After(w.db, d), d.command.aggregateId);
  }

  /** A move leaves an ended hand's row as it is and begins no deal on it. */
  ghost predicate LeavesEnded(w: World, m: Move, hand: Text) {
    && (!m.Local? ==> hand in w.db.hands && hand in m.db.hands && m.db.hands[hand] == w.db.hands[hand])
    && (m.Begun? ==> m.place.hand != hand)
  }

  lemma MovedEnded(w: World, m: Move, hand: Text, places: set<Place>, epoch: Option<nat>)
    requires Placed(w) && MoveFits(w, m) && Ended(w, hand, places, epoch) && LeavesEnded(w, m, hand)
    ensures Ended(Moved(w, m), hand, places, epoch)
  {
    if m.Local? {
      LocallyEnded(w, m.event, hand, places, epoch);
    }
  }

  lemma LocallyEnded(w: World, event: Event, hand: Text, places: set<Place>, epoch: Option<nat>)
    requires Placed(w) && Ended(w, hand, places, epoch)
    ensures Ended(Locally(w, event), hand, places, epoch)
  {
  }

  /** A fence lasts, and nothing commits behind it. */
  lemma MovedFenced(w: World, m: Move, hand: Text, places: set<Place>, epoch: Option<nat>, committed: Option<nat>)
    requires MoveFits(w, m) && Ended(w, hand, places, epoch) && LeavesEnded(w, m, hand)
    requires Fenced(w, hand, epoch, committed)
    ensures Fenced(Moved(w, m), hand, epoch, committed)
  {
    if m.Local? {
      LocallyFenced(w, m.event, hand, places, epoch, committed);
    }
  }

  lemma LocallyFenced(w: World, event: Event, hand: Text, places: set<Place>, epoch: Option<nat>,
                      committed: Option<nat>)
    requires Ended(w, hand, places, epoch) && Fenced(w, hand, epoch, committed)
    ensures Fenced(Locally(w, event), hand, epoch, committed)
  {
  }

  lemma DeliveryLeavesEnded(w: World, d: Delivery, hand: Text)
    requires Fits(w) && hand in w.db.hands && H.Terminal(w.db.hands[hand].body.phase) && !MayDeal(w.db, d, hand)
    ensures hand in Reachable.After(w.db, d).hands && Reachable.After(w.db, d).hands[hand] == w.db.hands[hand]
  {
    DeliveryKeepsUndealt(w.db, d, hand);
  }

  lemma DealLeavesEnded(w: World, d: Delivery, runtimeOk: bool, hand: Text)
    requires Fits(w) && d.op.MarkHandDealt? && hand in w.db.hands && H.Terminal(w.db.hands[hand].body.phase)
    ensures var db := Reachable.After(w.db, WithStart(Games(w.db), d, runtimeOk));
            hand in db.hands && db.hands[hand] == w.db.hands[hand]
    ensures Started(Games(w.db), d, runtimeOk) ==> d.command.aggregateId != hand
  {
    if Started(Games(w.db), d, runtimeOk) {
      StillDealing(Games(w.db), d, runtimeOk);
    } else {
      RowForbidsDeal(w, d, runtimeOk);
    }
    DeliveryLeavesEnded(w, WithStart(Games(w.db), d, runtimeOk), hand);
  }

  lemma EventLeavesEnded(w: World, event: Event, hand: Text)
    requires Fits(w) && hand in w.db.hands && H.Terminal(w.db.hands[hand].body.phase)
    ensures LeavesEnded(w, MoveOf(w, event), hand)
  {
    if event.Arrives? && !event.d.op.MarkHandDealt? {
      DeliveryLeavesEnded(w, event.d, hand);
    } else if event.Deals? && event.d.op.MarkHandDealt? {
      DealLeavesEnded(w, event.d, event.runtimeOk, hand);
    }
  }

  lemma StepKeepsClosed(w: World, event: Event, hand: Text, places: set<Place>, epoch: Option<nat>,
                        committed: Option<nat>)
    requires Fits(w) && HashingEvent(event) && Closed(w, hand, places, epoch, committed)
    ensures Closed(Step(w, event), hand, places, epoch, committed)
  {
    EventMoveFits(w, event);
    EventLeavesEnded(w, event, hand);
    MovedEnded(w, MoveOf(w, event), hand, places, epoch);
    MovedFenced(w, MoveOf(w, event), hand, places, epoch, committed);
  }

  /** What every step keeps, every run keeps. */
  lemma {:induction false} RunKeeps(w: World, events: seq<Event>, kept: World -> bool)
    requires Fits(w) && AllHashing(events) && kept(w)
    requires forall v, i :: 0 <= i < |events| && Fits(v) && kept(v) ==> kept(Step(v, events[i]))
    ensures kept(Run(w, events))
  {
    if events != [] {
      var fewer := events[..|events| - 1];
      forall v, i | 0 <= i < |fewer| && Fits(v) && kept(v) ensures kept(Step(v, fewer[i])) {
        assert fewer[i] == events[i];
      }
      RunKeeps(w, fewer, kept);
      RunFits(w, fewer);
    }
  }

  lemma {:induction false} RunKeepsClosed(w: World, events: seq<Event>, hand: Text, places: set<Place>,
                                          epoch: Option<nat>, committed: Option<nat>)
    requires Fits(w) && Closed(w, hand, places, epoch, committed) && AllHashing(events)
    ensures Closed(Run(w, events), hand, places, epoch, committed)
  {
    var kept: World -> bool := v => Closed(v, hand, places, epoch, committed);
    forall v, i | 0 <= i < |events| && Fits(v) && kept(v) ensures kept(Step(v, events[i])) {
      StepKeepsClosed(v, events[i], hand, places, epoch, committed);
    }
    RunKeeps(w, events, kept);
  }

  lemma BeginningFits()
    ensures Fits(BEGINNING)
  {
    EmptyIsConsistent();
  }

  /** The world after any run, an accepted ending, and any run from there on. */
  lemma {:induction false} ClosedAfterwards(before: seq<Event>, d: Delivery, after: seq<Event>, committed: Option<nat>)
    requires AllHashing(before) && AllHashing(after) && EndingOperation(d.op) && H.NeverZero(d.env.commitOf)
    requires var w, hand := Run(BEGINNING, before), d.command.aggregateId;
             && NewlyAccepted(Reply(w.db, d))
             && Fenced(Step(w, Arrives(d)), hand, RowEpoch(w, hand), committed)
    ensures var w, hand := Run(BEGINNING, before), d.command.aggregateId;
            && Fits(w)
            && Closed(Run(Step(w, Arrives(d)), after), hand, w.admitted, RowEpoch(w, hand), committed)
  {
    var w, hand := Run(BEGINNING, before), d.command.aggregateId;
    BeginningFits();
    RunFits(BEGINNING, before);
    EndingIsEnded(w, d);
    StepFits(w, Arrives(d));
    RunKeepsClosed(Step(w, Arrives(d)), after, hand, w.admitted, RowEpoch(w, hand), committed);
  }

  /** An action that commits on an ended hand was admitted in time, and the row's epoch has not changed since. */
  lemma EndedAppends(w: World, p: Place, expected: nat, places: set<Place>, epoch: Option<nat>)
    requires Ended(w, p.hand, places, epoch) && Step(w, Appends(p, expected)) != w
    ensures p in places && epoch.Some? && RowEpoch(w, p.hand) == epoch
  {
  }

  /** However a hand ends, in any run: from then on no place is newly admitted for it, and a live action of it commits
      only at a place that was admitted before the ending, and only while the row still has the epoch it had then. */
  lemma {:induction false} OnlyAdmittedActionsFollow(before: seq<Event>, d: Delivery, after: seq<Event>, p: Place,
                                                     expected: nat)
    requires AllHashing(before) && AllHashing(after)
    requires EndingOperation(d.op) && H.NeverZero(d.env.commitOf)
    requires NewlyAccepted(Reply(Run(BEGINNING, before).db, d)) && p.hand == d.command.aggregateId
    ensures var w, later := Run(BEGINNING, before), Run(Step(Run(BEGINNING, before), Arrives(d)), after);
            && (p in later.admitted ==> p in w.admitted)
            && (Step(later, Appends(p, expected)) != later ==>
                  p in w.admitted && HasWriter(w.db, p.hand) && RowEpoch(later, p.hand) == RowEpoch(w, p.hand))
  {
    var w, later := Run(BEGINNING, before), Run(Step(Run(BEGINNING, before), Arrives(d)), after);
    ClosedAfterwards(before, d, after, None);
    if Step(later, Appends(p, expected)) != later {
      EndedAppends(later, p, expected, w.admitted, RowEpoch(w, p.hand));
    }
  }

  /** In any run of commands, deals, recoveries, take-overs and live actions at any number of processes: a guarded
      expiry commits only if no live action above the version it expected has committed, and afterwards no live
      action of the hand ever commits - at whatever process, admitted before or after, under whatever epoch. */
  lemma {:induction false} NoLiveActionAfterExpiry(before: seq<Event>, d: Delivery, after: seq<Event>, p: Place,
                                                   expected: nat)
    requires AllHashing(before) && AllHashing(after)
    requires Guarded(d.op, d.env) && H.NeverZero(d.env.commitOf) && NewlyAccepted(Reply(Run(BEGINNING, before).db, d))
    requires p.hand == d.command.aggregateId
    ensures var w := Run(BEGINNING, before);
            HasWriter(w.db, p.hand) && w.db.live[p.hand].committed <= d.op.expectedLiveVersion
    ensures var w, later := Run(BEGINNING, before), Run(Step(Run(BEGINNING, before), Arrives(d)), after);
            && Step(later, Appends(p, expected)) == later
            && (HasWriter(later.db, p.hand) && HasWriter(w.db, p.hand)
                ==> later.db.live[p.hand].committed == w.db.live[p.hand].committed)
  {
    var w, later := Run(BEGINNING, before), Run(Step(Run(BEGINNING, before), Arrives(d)), after);
    BeginningFits();
    RunFits(BEGINNING, before);
    ExpiryCommitsOnlyUnprogressed(w.db, d);
    ClosedAfterwards(before, d, after, Some(w.db.live[p.hand].committed));
    if Step(later, Appends(p, expected)) != later {
      EndedAppends(later, p, expected, w.admitted, RowEpoch(w, p.hand));
    }
  }

  /** A process that takes a hand over cuts off every other: under no epoch that anybody else holds does a live action
      of that hand commit, and the taker holds the row's epoch if it found the hand live. */
  lemma {:induction false} TakeOverCutsOff(events: seq<Event>, p: Place, q: Place, expected: nat)
    requires AllHashing(events) && q.hand == p.hand && q != p
    requires var w := Run(BEGINNING, events);
             p.process !in w.serving && p in w.loaded && HasWriter(w.db, p.hand)
    ensures var w := Run(BEGINNING, events);
            var taken := Step(w, TakesOver(p));
            && Step(taken, Appends(q, expected)) == taken
            && RowEpoch(taken, p.hand) == Some(w.db.live[p.hand].epoch + 1)
            && (w.loaded[p] ==> p in taken.held && RowEpoch(taken, p.hand) == Some(taken.held[p]))
  {
    BeginningFits();
    RunFits(BEGINNING, events);
    TakenIsCutOff(Run(BEGINNING, events), p, q, expected);
  }

  lemma TakenIsCutOff(w: World, p: Place, q: Place, expected: nat)
    requires HeldFits(w) && q.hand == p.hand && q != p
    requires p.process !in w.serving && p in w.loaded && HasWriter(w.db, p.hand)
    ensures var taken := Step(w, TakesOver(p));
            && Step(taken, Appends(q, expected)) == taken
            && RowEpoch(taken, p.hand) == Some(w.db.live[p.hand].epoch + 1)
            && (w.loaded[p] ==> p in taken.held && RowEpoch(taken, p.hand) == Some(taken.held[p]))
  {
  }

  // ------------------------------------------------------------------ endings without a fence

  lemma UnguardedKeepsLive(db: Database, command: Command, op: Operation, act: H.HandAction, env: Environment)
    requires !Guarded(op, env)
    ensures HandleTerminate(db, command, op, act, env).db.live == db.live
  {
  }

  lemma UnguardedEndingKeepsRows(db: Database, d: Delivery)
    requires EndingOperation(d.op) && !Guarded(d.op, d.env)
    ensures Reachable.After(db, d).live == db.live
  {
    var command := Bound(d.command, d.op, d.env);
    var claimed := Claim(db, KeyFor(d), command).0;
    EndingIsHandled(claimed, d.actor, command, d.op, d.env);
    UnguardedKeepsLive(claimed, command, d.op, EndingActionOf(d.op, command.expectedVersion), d.env);
    AttemptKeepsLive(db, d.actor, command, d.env, Handle(claimed, d.actor, command, d.op, d.env));
  }

  lemma AttemptKeepsLive(db: Database, actor: Text, command: Command, env: Environment, handled: Handled)
    requires KeyOf(actor, command) in handled.db.ledger && handled.db.live == db.live
    ensures Attempt(db, actor, command, env, handled).0.live == db.live
  {
  }

  /** A serving process holds the current epoch of a hand that is being bid or played. */
  predicate Playable(w: World, p: Place) {
    && p.process in w.serving && p in w.held && RowEpoch(w, p.hand) == Some(w.held[p])
    && p.hand in w.db.hands && w.db.hands[p.hand].body.phase in {H.Bidding, H.Playing}
  }

  /** An action is admitted, the hand ends, and the action commits. */
  ghost predicate ActionFollows(w: World, d: Delivery, p: Place)
    requires HasWriter(w.db, p.hand)
  {
    var committed := w.db.live[p.hand].committed;
    var ended := Step(Step(w, Admits(p)), Arrives(d));
    var later := Step(ended, Appends(p, committed));
    && p.hand in ended.db.hands && H.Terminal(ended.db.hands[p.hand].body.phase)
    && HasWriter(later.db, p.hand) && later.db.live[p.hand].committed == committed + 1
  }

  /** No other ending fences the row: in every reachable world in which a hand can be played at some place, an action
      admitted there can still commit after such an ending. */
  lemma {:induction false} AdmittedActionMayFollow(before: seq<Event>, d: Delivery, p: Place)
    requires AllHashing(before) && H.NeverZero(d.env.commitOf) && EndingOperation(d.op) && !Guarded(d.op, d.env)
    requires Playable(Run(BEGINNING, before), p) && p.hand == d.command.aggregateId
    requires NewlyAccepted(Reply(Run(BEGINNING, before).db, d))
    ensures ActionFollows(Run(BEGINNING, before), d, p)
  {
    BeginningFits();
    RunFits(BEGINNING, before);
    PlayableFollows(Run(BEGINNING, before), d, p);
  }

  lemma PlayableFollows(w: World, d: Delivery, p: Place)
    requires Fits(w) && H.NeverZero(d.env.commitOf) && EndingOperation(d.op) && !Guarded(d.op, d.env)
    requires Playable(w, p) && NewlyAccepted(Reply(w.db, d)) && p.hand == d.command.aggregateId
    ensures ActionFollows(w, d, p)
  {
    EndingEnds(w.db, d);
    UnguardedEndingKeepsRows(w.db, d);
    CommandArrives(Step(w, Admits(p)), d);
    AppendFollows(w, Reachable.After(w.db, d), p);
  }

  lemma AppendFollows(w: World, db: Database, p: Place)
    requires db.live == w.db.live && Playable(w, p)
    ensures Step(w, Admits(p)) == w.(admitted := w.admitted + {p})
    ensures var ended := w.(admitted := w.admitted + {p}, db := db);
            Step(ended, Appends(p, w.db.live[p.hand].committed)).db
            == CommitLive(db, p.hand, w.held[p], w.db.live[p.hand].committed)
  {
  }
}
