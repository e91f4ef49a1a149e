/** How the dealer's worker carries a fair hand on, from its public beacon to the live game. */
module DealerDrive {
  import opened Bytes
  import opened Text
  import opened Domain
  import opened Store
  import opened Handlers
  import opened Service
  import opened Acceptance
  import opened StoreInvariant
  import opened Ledger
  import opened Reachable
  import opened Quicknet
  import opened Verdict
  import opened AutoDealer
  import opened StoredHands
  import opened Provenance
  import HandMeaning
  import H = HandModel

  /** The dealer leaves a hand alone, with nothing written, unless the hand is on a quicknet round and collects
      contributions past that round's publication, waits for a beacon that is out, or is to be dealt. */
  lemma LeavesAlone(write: Writer, db: Database, hand: Text, a: Answers, dealer: Dealer)
    requires hand in db.hands
    requires var t := db.hands[hand];
             || t.body.plan.provider != QUICKNET
             || t.body.phase !in {H.Committing, H.Revealing, H.WaitingBeacon, H.Dealing}
             || (HandLemmas.InFairness(t.body.phase) && CheckDeadline(t.body.plan, a.now).None?)
             || (t.body.phase == H.WaitingBeacon && a.fetched == NotPublished)
    ensures Treat(write, db, hand, a, dealer) == (db, Skipped)
  {
    ExactlyOneSide(db.hands[hand].body.plan, a.now);
  }

  /** An unreadable beacon, or a command that finds no identifier, stops the dealer with nothing written. */
  lemma StopsUnwritten(write: Writer, db: Database, hand: Text, a: Answers, dealer: Dealer)
    requires hand in db.hands && db.hands[hand].body.plan.provider == QUICKNET
    requires (db.hands[hand].body.phase == H.WaitingBeacon && a.fetched != NotPublished)
             || db.hands[hand].body.phase == H.Dealing
    requires a.commandId.None? || (db.hands[hand].body.phase == H.WaitingBeacon && a.fetched == Unreadable)
    ensures Treat(write, db, hand, a, dealer) == (db, Stopped)
  {
  }

  /** The delivery with which the dealer writes. */
  function DealerDelivery(db: Database, hand: Text, op: Operation, a: Answers, dealer: Dealer): Delivery
    requires hand in db.hands && a.commandId.Some?
  {
    Delivery(dealer.actor, AutoDealer.CommandFor(db, db.hands[hand], op, a.commandId.value, a.now, dealer), op, a.env)
  }

  /** The dealer's command is the next in its sequence, expects the version just read, and lasts its lifetime from the
      millisecond it was issued in. */
  lemma DealerCommandIsNext(db: Database, hand: Text, op: Operation, a: Answers, dealer: Dealer)
    requires Consistent(db) && hand in db.hands && a.commandId.Some?
    ensures var c := DealerDelivery(db, hand, op, a, dealer).command;
            && c.commandId == a.commandId.value && c.aggregateId == hand && c.aggregate == AggregateHand
            && c.clientSeq == LastSequence(db, SequenceKey(AggregateHand, hand, dealer.actor)) + 1
            && c.expectedVersion == db.hands[hand].body.version && c.expiresAt == c.issuedAt + dealer.ttl
            && c.issuedAt == a.now - a.now % 1_000_000
  {
    NamedAndNumbered(db, hand);
  }

  lemma DealerIsReceived(db: Database, hand: Text, op: Operation, a: Answers, dealer: Dealer)
    requires Consistent(db) && hand in db.hands && Favourable(db, hand, a, dealer) && !ConcernsRoom(op)
    ensures Received(db, DealerDelivery(db, hand, op, a, dealer))
  {
    var d := DealerDelivery(db, hand, op, a, dealer);
    HandIsLoaded(db, hand);
    NamedAndNumbered(db, hand);
    CommandPasses(db, db.hands[hand], op, a, dealer, Bound(d.command, op, a.env).payloadDigest);
  }

  lemma NamedAndNumbered(db: Database, hand: Text)
    requires Loadable(db) && hand in db.hands
    ensures db.hands[hand].body.id == hand && !Blank(hand) && db.hands[hand].body.version > 0
    ensures HandAt(db, hand).Some? && HandAt(db, hand).value.version == db.hands[hand].body.version
  {
    assert HandRowFine(hand, db.hands[hand]);
    HandLoaded(db.hands[hand]);
  }

  /** A command of the dealer that the hand allows is accepted, and the hand takes the action it stands for. */
  lemma DealerIsAccepted(db: Database, hand: Text, h: H.HandState, op: Operation, a: Answers, dealer: Dealer,
                         act: H.HandAction)
    requires Consistent(db) && H.NeverZero(a.env.commitOf) && hand in db.hands && Favourable(db, hand, a, dealer)
    requires op.LockHandBeacon? || op.MarkHandDealt?
    requires Asks(DealerDelivery(db, hand, op, a, dealer), act) && (op.MarkHandDealt? ==> a.env.liveStart.None?)
    requires HandAt(db, hand) == Some(h) && H.Apply(h, a.env.commitOf, act).Done?
    ensures var d := DealerDelivery(db, hand, op, a, dealer);
            NewlyAccepted(Reply(db, d)) && HandAt(After(db, d), hand) == Some(H.Apply(h, a.env.commitOf, act).state)
  {
    var d := DealerDelivery(db, hand, op, a, dealer);
    NamedAndNumbered(db, hand);
    DealerIsReceived(db, hand, op, a, dealer);
    AcceptedIff(db, d);
    AcceptedActionIsTaken(db, d, hand, h, act);
  }

  /** An accepted command on a hand takes the action that it stands for. */
  lemma AcceptedActionIsTaken(db: Database, d: Delivery, hand: Text, h: H.HandState, act: H.HandAction)
    requires Consistent(db) && H.NeverZero(d.env.commitOf) && d.command.aggregateId == hand && !ConcernsRoom(d.op)
    requires NewlyAccepted(Reply(db, d)) && Asks(d, act) && hand in db.hands && HandAt(db, hand) == Some(h)
    ensures H.Apply(h, d.env.commitOf, act).Done?
    ensures HandAt(After(db, d), hand) == Some(H.Apply(h, d.env.commitOf, act).state)
  {
    var e, claimed, tx, events := AcceptedEffect(db, d);
    SubjectIsHand(e, d, Bound(d.command, d.op, d.env), claimed, tx, events);
    EffectIsTaken(e, db, claimed, d.env.commitOf, tx, After(db, d), events, hand, h);
    IntendedIsAsked(e, d, Bound(d.command, d.op, d.env));
    AskedOnce(d, e.act, act);
  }

  lemma SubjectIsHand(e: Effects.Effect, d: Delivery, command: Command, db: Database, tx: Database, events: seq<Event>)
    requires Effects.Intended(e, d.actor, command, d.op, d.env) && !ConcernsRoom(d.op)
    requires Effects.Caused(e, db, d.env.commitOf, tx, events) && Effects.Subject(e).1 == d.command.aggregateId
    ensures ActsOn(e, d.command.aggregateId)
  {
    EffectKeepsNames(e, db, d.env.commitOf, tx, events);
  }

  lemma EffectIsTaken(e: Effects.Effect, db: Database, claimed: Database, commitOf: H.CommitFunction, tx: Database,
                      later: Database, events: seq<Event>, hand: Text, h: H.HandState)
    requires Loadable(db) && Loadable(later) && claimed == db.(ledger := claimed.ledger) && hand in db.hands
    requires Effects.Caused(e, claimed, commitOf, tx, events) && later.rooms == tx.rooms && later.hands == tx.hands
    requires ActsOn(e, hand) && HandAt(db, hand) == Some(h)
    ensures H.Apply(h, commitOf, e.act).Done? && HandAt(later, hand) == Some(H.Apply(h, commitOf, e.act).state)
  {
    SameRows(db, claimed);
    SameRows(later, tx);
    SameHandAt(db, claimed, hand);
    SameHandAt(later, tx, hand);
    EffectOnHand(e, claimed, commitOf, tx, events, hand);
  }

  lemma AskedOnce(d: Delivery, a: H.HandAction, b: H.HandAction)
    requires Asks(d, a) && Asks(d, b)
    ensures a == b
  {
  }

  /** The value is a beacon of the plan that can be locked. */
  predicate Lockable(v: H.BeaconValue, plan: H.BeaconPlan) {
    && H.BeaconPlan(v.provider, v.round) == plan && v.digest != ZeroBlock()
    && !Blank(v.proofRef) && |Trim(v.proofRef)| <= 512
  }

  /** The row is on a quicknet round, in this phase, and holds the hand. */
  predicate DealerRow(db: Database, hand: Text, h: H.HandState, phase: H.Phase) {
    && hand in db.hands && HandAt(db, hand) == Some(h) && h.phase == phase && db.hands[hand].body.phase == phase
    && h.plan.provider == QUICKNET && db.hands[hand].body.plan == h.plan && h.version == db.hands[hand].body.version
  }

  lemma WaitingLocks(h: H.HandState, commitOf: H.CommitFunction, v: H.BeaconValue)
    requires h.phase == H.WaitingBeacon && Lockable(v, h.plan)
    ensures H.Apply(h, commitOf, H.LockAction(v, h.version)) == H.LockPublicBeacon(h, v, h.version)
    ensures H.LockPublicBeacon(h, v, h.version).Done?
  {
  }

  lemma LockingIsAccepted(db: Database, hand: Text, h: H.HandState, a: Answers, dealer: Dealer)
    requires Consistent(db) && H.NeverZero(a.env.commitOf) && Favourable(db, hand, a, dealer)
    requires DealerRow(db, hand, h, H.WaitingBeacon) && a.env.beacon.Ok? && Lockable(a.env.beacon.value, h.plan)
    ensures var d, v := DealerDelivery(db, hand, LockHandBeacon, a, dealer), a.env.beacon.value;
            NewlyAccepted(Reply(db, d)) && HandAt(After(db, d), hand) == Some(H.LockPublicBeacon(h, v, h.version).state)
  {
    WaitingLocks(h, a.env.commitOf, a.env.beacon.value);
    DealerIsAccepted(db, hand, h, LockHandBeacon, a, dealer, H.LockAction(a.env.beacon.value, h.version));
  }

  /** The store that the dealer's command leaves. */
  function DealerStore(db: Database, hand: Text, op: Operation, a: Answers, dealer: Dealer): Database
    requires hand in db.hands && a.commandId.Some?
  {
    After(db, DealerDelivery(db, hand, op, a, dealer))
  }

  lemma WaitingChooses(t: H.HandSnapshot, a: Answers, dealer: Dealer)
    requires t.body.phase == H.WaitingBeacon && t.body.plan.provider == QUICKNET && a.fetched == Fetched.Fetched
    ensures Choose(t, a, dealer) == Issue(LockHandBeacon)
  {
  }

  lemma LockedState(h: H.HandState, v: H.BeaconValue)
    requires h.phase == H.WaitingBeacon && Lockable(v, h.plan)
    ensures H.LockPublicBeacon(h, v, h.version).Done?
    ensures var h' := H.LockPublicBeacon(h, v, h.version).state;
            && h'.phase == H.Dealing
            && h'.beacon == Some(H.BeaconValue(v.provider, v.round, v.digest, Trim(v.proofRef)))
  {
    HandMeaning.LockingKeepsValue(h, v, h.version);
  }

  /** Where nothing disturbs its command, the dealer locks the published beacon of a waiting hand: the hand is to be
      dealt then, with that very beacon. */
  lemma LocksPublishedBeacon(db: Database, hand: Text, h: H.HandState, a: Answers, dealer: Dealer)
      returns (h': H.HandState)
    requires Consistent(db) && H.NeverZero(a.env.commitOf) && Favourable(db, hand, a, dealer)
    requires DealerRow(db, hand, h, H.WaitingBeacon) && a.env.beacon.Ok? && Lockable(a.env.beacon.value, h.plan)
    requires a.fetched == Fetched.Fetched
    ensures Treat(Step, db, hand, a, dealer) == (DealerStore(db, hand, LockHandBeacon, a, dealer), Progressed)
    ensures HandAt(DealerStore(db, hand, LockHandBeacon, a, dealer), hand) == Some(h') && h'.phase == H.Dealing
    ensures var v := a.env.beacon.value;
            h'.beacon == Some(H.BeaconValue(v.provider, v.round, v.digest, Trim(v.proofRef)))
  {
    LockingIsAccepted(db, hand, h, a, dealer);
    WaitingChooses(db.hands[hand], a, dealer);
    WritesAccepted(db, hand, LockHandBeacon, a, dealer);
    LockedState(h, a.env.beacon.value);
    h' := H.LockPublicBeacon(h, a.env.beacon.value, h.version).state;
  }

  lemma DealingDeals(h: H.HandState, commitOf: H.CommitFunction)
    requires h.phase == H.Dealing
    ensures H.Apply(h, commitOf, H.DealtAction(h.version)).Done?
  {
  }

  /** Where nothing disturbs its command and the live game starts, the dealer deals a hand that is to be dealt. */
  lemma DealsLockedHand(db: Database, hand: Text, h: H.HandState, a: Answers, dealer: Dealer)
      returns (h': H.HandState)
    requires Consistent(db) && H.NeverZero(a.env.commitOf) && Favourable(db, hand, a, dealer)
    requires DealerRow(db, hand, h, H.Dealing) && a.env.liveStart.None? && a.tracked
    ensures Treat(Step, db, hand, a, dealer) == (DealerStore(db, hand, MarkHandDealt, a, dealer), Progressed)
    ensures HandAt(DealerStore(db, hand, MarkHandDealt, a, dealer), hand) == Some(h')
    ensures h'.phase == H.Bidding && h'.beacon == h.beacon
  {
    DealingDeals(h, a.env.commitOf);
    DealerIsAccepted(db, hand, h, MarkHandDealt, a, dealer, H.DealtAction(h.version));
    SeatsAreNamed(db, hand);
    WritesAccepted(db, hand, MarkHandDealt, a, dealer);
    HandMeaning.AdvancingChangesPhase(h, a.env.commitOf, H.DealtAction(h.version));
    h' := H.Apply(h, a.env.commitOf, H.DealtAction(h.version)).state;
  }

  lemma SeatsAreNamed(db: Database, hand: Text)
    requires Loadable(db) && hand in db.hands
    ensures db.hands[hand].body.seats[0].account != []
  {
    BlankIsEmpty();
    HandIsLoaded(db, hand);
    assert HandRowFine(hand, db.hands[hand]);
    HandLoaded(db.hands[hand]);
  }

  /** The dealer's treatment of a hand for which it issues an accepted command. */
  lemma WritesAccepted(db: Database, hand: Text, op: Operation, a: Answers, dealer: Dealer)
    requires hand in db.hands && a.commandId.Some? && Choose(db.hands[hand], a, dealer) == Issue(op)
    requires NewlyAccepted(Reply(db, DealerDelivery(db, hand, op, a, dealer)))
    requires op.MarkHandDealt? ==> db.hands[hand].body.seats[0].account != [] && a.tracked
    ensures Treat(Step, db, hand, a, dealer) == (After(db, DealerDelivery(db, hand, op, a, dealer)), Progressed)
  {
  }
}
