/** What happens to a stored hand over whole runs of the service: fairness, deadlines and the beacon plan. */
module StoredHands {
  import opened Bytes
  import opened Text
  import opened Domain
  import opened Store
  import opened Handlers
  import opened Service
  import opened Effects
  import opened Acceptance
  import opened StoreInvariant
  import opened Ledger
  import opened Reachable
  import opened Quicknet
  import opened SetupProvider
  import opened AutoDealer
  import opened HandLemmas
  import H = HandModel

  // ------------------------------------------------------------------ one effect

  lemma HandIsLoaded(db: Database, hand: Text)
    requires Loadable(db) && hand in db.hands
    ensures HandAt(db, hand).Some?
    ensures var h, body := HandAt(db, hand).value, db.hands[hand].body;
            H.Invariant(h) && h.id == hand && h.plan == body.plan && h.phase == body.phase
  {
    assert HandRowFine(hand, db.hands[hand]);
    HandLoaded(db.hands[hand]);
  }

  lemma EvolvesFromItself(h: H.HandState)
    ensures Evolves(h, h)
  {
  }

  /** The effect is an action on this hand. */
  predicate ActsOn(e: Effect, hand: Text) {
    (e.HandChanged? || e.HandEnded?) && e.h.id == hand
  }

  lemma EffectRow(e: Effect, db: Database, commitOf: H.CommitFunction, tx: Database, events: seq<Event>, hand: Text)
    requires Caused(e, db, commitOf, tx, events) && hand in db.hands
    ensures hand in tx.hands
    ensures ActsOn(e, hand) ==> H.Restore(db.hands[hand]) == Ok(e.h) && H.Apply(e.h, commitOf, e.act).Done?
                                && e.h' == H.Apply(e.h, commitOf, e.act).state && tx.hands[hand] == H.Snapshot(e.h')
    ensures !ActsOn(e, hand) ==> tx.hands[hand] == db.hands[hand]
  {
    WrittenRows(e, db, commitOf, tx, events);
    if e.HandChanged? || e.HandEnded? {
      EventsAreNumbered(e.h, commitOf, e.act);
    }
  }

  /** How an effect changes a hand that is there already: not at all, or by the effect's own action. */
  lemma EffectOnHand(e: Effect, db: Database, commitOf: H.CommitFunction, tx: Database, events: seq<Event>, hand: Text)
    requires Loadable(db) && Loadable(tx) && Caused(e, db, commitOf, tx, events) && hand in db.hands
    ensures HandAt(db, hand).Some? && hand in tx.hands && HandAt(tx, hand).Some?
    ensures ActsOn(e, hand) ==> HandAt(db, hand).value == e.h && HandAt(tx, hand).value == e.h'
                                && H.Apply(e.h, commitOf, e.act).Done? && e.h' == H.Apply(e.h, commitOf, e.act).state
    ensures !ActsOn(e, hand) ==> HandAt(tx, hand) == HandAt(db, hand)
  {
    EffectRow(e, db, commitOf, tx, events, hand);
    HandIsLoaded(db, hand);
    if ActsOn(e, hand) {
      RowsLoad(db, e.h, tx, e.h', hand);
    } else {
      SameRowAt(db, tx, hand);
    }
  }

  lemma RowsLoad(db: Database, h: H.HandState, later: Database, h': H.HandState, hand: Text)
    requires hand in db.hands && H.Restore(db.hands[hand]) == Ok(h)
    requires Loadable(later) && hand in later.hands && later.hands[hand] == H.Snapshot(h')
    ensures HandAt(db, hand) == Some(h) && HandAt(later, hand) == Some(h')
  {
    HandIsLoaded(later, hand);
    SnapshotLoads(h', later, hand);
  }

  lemma SameRowAt(db: Database, later: Database, hand: Text)
    requires hand in db.hands && hand in later.hands && later.hands[hand] == db.hands[hand]
    ensures HandAt(later, hand) == HandAt(db, hand)
  {
  }

  /** A row that holds a snapshot loads as that hand. */
  lemma SnapshotLoads(h: H.HandState, db: Database, hand: Text)
    requires hand in db.hands && db.hands[hand] == H.Snapshot(h) && H.Restore(db.hands[hand]).Ok?
    ensures HandAt(db, hand) == Some(h)
  {
    assert H.Rebuilt(H.Snapshot(h)).contributions == h.contributions;
  }

  // ------------------------------------------------------------------ commit before beacon

  /** Every stored hand's reveals match their commitments, and a beacon is known only behind three reveals. */
  ghost predicate AllHonest(db: Database, commitOf: H.CommitFunction) {
    forall hand :: hand in db.hands && HandAt(db, hand).Some? ==> Honest(HandAt(db, hand).value, commitOf)
  }

  lemma EffectEvolves(e: Effect, db: Database, commitOf: H.CommitFunction, tx: Database, events: seq<Event>, hand: Text)
    requires Loadable(db) && Loadable(tx) && Caused(e, db, commitOf, tx, events) && hand in db.hands
    ensures HandAt(db, hand).Some? && HandAt(tx, hand).Some? && Evolves(HandAt(db, hand).value, HandAt(tx, hand).value)
    ensures Honest(HandAt(db, hand).value, commitOf) ==> Honest(HandAt(tx, hand).value, commitOf)
  {
    EffectOnHand(e, db, commitOf, tx, events, hand);
    HandIsLoaded(db, hand);
    var h := HandAt(db, hand).value;
    if ActsOn(e, hand) {
      TransitionsEvolve(h, commitOf, e.act);
      if Honest(h, commitOf) {
        TransitionsKeepHonesty(h, commitOf, e.act);
      }
    } else {
      EvolvesFromItself(h);
    }
  }

  /** A hand that an effect adds: without contributions, on the plan that was prepared for it. */
  lemma EffectAddsHand(e: Effect, db: Database, commitOf: H.CommitFunction, tx: Database, events: seq<Event>,
                       hand: Text)
    requires Loadable(tx) && Caused(e, db, commitOf, tx, events) && hand in tx.hands && hand !in db.hands
    ensures e.HandStarted? && e.h'.id == hand && HandAt(tx, hand) == Some(e.h')
    ensures e.h'.contributions == [H.NOTHING, H.NOTHING, H.NOTHING] && e.h'.beacon.None?
  {
    WrittenRows(e, db, commitOf, tx, events);
    EffectKeepsNames(e, db, commitOf, tx, events);
    HandIsLoaded(tx, hand);
    SnapshotLoads(e.h', tx, hand);
  }

  lemma EffectKeepsNames(e: Effect, db: Database, commitOf: H.CommitFunction, tx: Database, events: seq<Event>)
    requires Caused(e, db, commitOf, tx, events)
    ensures e.HandChanged? || e.HandEnded? ==> e.h'.id == e.h.id && e.h.id in db.hands
  {
    if e.HandChanged? || e.HandEnded? {
      EventsAreNumbered(e.h, commitOf, e.act);
    }
  }

  lemma NewHandIsHonest(h: H.HandState, commitOf: H.CommitFunction)
    requires h.contributions == [H.NOTHING, H.NOTHING, H.NOTHING] && h.beacon.None?
    ensures Honest(h, commitOf)
  {
  }

  /** What a delivery does to every hand. */
  ghost predicate HandsEvolve(db: Database, later: Database) {
    forall hand :: hand in db.hands ==>
      && HandAt(db, hand).Some? && hand in later.hands && HandAt(later, hand).Some?
      && Evolves(HandAt(db, hand).value, HandAt(later, hand).value)
  }

  lemma SameHandAt(db: Database, later: Database, hand: Text)
    requires later.hands == db.hands
    ensures HandAt(later, hand) == HandAt(db, hand)
  {
  }

  lemma SameHandEvolves(db: Database, later: Database, hand: Text)
    requires Loadable(db) && later.hands == db.hands && hand in db.hands
    ensures HandAt(db, hand).Some? && HandAt(later, hand).Some?
            && Evolves(HandAt(db, hand).value, HandAt(later, hand).value)
  {
    SameHandAt(db, later, hand);
    HandIsLoaded(db, hand);
    EvolvesFromItself(HandAt(db, hand).value);
  }

  lemma SameHandsEvolve(db: Database, later: Database)
    requires Loadable(db) && later.hands == db.hands
    ensures HandsEvolve(db, later)
  {
    forall hand | hand in db.hands
      ensures HandAt(db, hand).Some? && HandAt(later, hand).Some?
              && Evolves(HandAt(db, hand).value, HandAt(later, hand).value)
    {
      SameHandEvolves(db, later, hand);
    }
  }

  lemma SameHandsHonest(db: Database, later: Database, commitOf: H.CommitFunction)
    requires later.hands == db.hands && AllHonest(db, commitOf)
    ensures AllHonest(later, commitOf)
  {
    forall hand | hand in later.hands && HandAt(later, hand).Some? ensures Honest(HandAt(later, hand).value, commitOf) {
      SameHandAt(db, later, hand);
    }
  }

  lemma EffectHandsEvolve(e: Effect, db: Database, commitOf: H.CommitFunction, tx: Database, events: seq<Event>)
    requires Loadable(db) && Loadable(tx) && Caused(e, db, commitOf, tx, events)
    ensures HandsEvolve(db, tx)
  {
    forall hand | hand in db.hands
      ensures HandAt(db, hand).Some? && hand in tx.hands && HandAt(tx, hand).Some?
      ensures Evolves(HandAt(db, hand).value, HandAt(tx, hand).value)
    {
      EffectEvolves(e, db, commitOf, tx, events, hand);
    }
  }

  lemma EffectHandsHonest(e: Effect, db: Database, commitOf: H.CommitFunction, tx: Database, events: seq<Event>)
    requires Loadable(db) && Loadable(tx) && Caused(e, db, commitOf, tx, events) && AllHonest(db, commitOf)
    ensures AllHonest(tx, commitOf)
  {
    forall hand | hand in tx.hands && HandAt(tx, hand).Some? ensures Honest(HandAt(tx, hand).value, commitOf) {
      if hand in db.hands {
        EffectEvolves(e, db, commitOf, tx, events, hand);
      } else {
        EffectAddsHand(e, db, commitOf, tx, events, hand);
        NewHandIsHonest(e.h', commitOf);
      }
    }
  }

  /** The store of an outcome has either the hands of before or those of its effect. */
  lemma OutcomeHandsEvolve(o: Outcome, db: Database, actor: Text, command: Command, env: Environment,
                           step: (Database, Result<CommandResult>))
    requires Loadable(db) && Loadable(step.0) && OutcomeOf(o, db, actor, command, env, step)
    ensures HandsEvolve(db, step.0) && (AllHonest(db, env.commitOf) ==> AllHonest(step.0, env.commitOf))
  {
    if o.AcceptedNow? {
      AcceptanceHandsEvolve(o.e, db, ClaimedBy(db, actor, command), env.commitOf, o.tx, o.events, step.0);
    } else {
      SameHandsEvolve(db, step.0);
      if AllHonest(db, env.commitOf) {
        SameHandsHonest(db, step.0, env.commitOf);
      }
    }
  }

  lemma AcceptanceHandsEvolve(e: Effect, db: Database, claimed: Database, commitOf: H.CommitFunction, tx: Database,
                              events: seq<Event>, later: Database)
    requires Loadable(db) && Loadable(later) && claimed == db.(ledger := claimed.ledger)
    requires Caused(e, claimed, commitOf, tx, events) && later.rooms == tx.rooms && later.hands == tx.hands
    ensures HandsEvolve(db, later) && (AllHonest(db, commitOf) ==> AllHonest(later, commitOf))
  {
    SameRows(db, claimed);
    SameRows(later, tx);
    EffectHandsEvolve(e, claimed, commitOf, tx, events);
    SameHandsEvolve(db, claimed);
    SameHandsEvolve(tx, later);
    HandsEvolveOn(db, claimed, tx);
    HandsEvolveOn(db, tx, later);
    if AllHonest(db, commitOf) {
      SameHandsHonest(db, claimed, commitOf);
      EffectHandsHonest(e, claimed, commitOf, tx, events);
      SameHandsHonest(tx, later, commitOf);
    }
  }

  lemma HandsEvolveOn(a: Database, b: Database, c: Database)
    requires HandsEvolve(a, b) && HandsEvolve(b, c)
    ensures HandsEvolve(a, c)
  {
    forall hand | hand in a.hands
      ensures hand in c.hands && HandAt(a, hand).Some? && HandAt(c, hand).Some?
              && Evolves(HandAt(a, hand).value, HandAt(c, hand).value)
    {
      EvolvesIsTransitive(HandAt(a, hand).value, HandAt(b, hand).value, HandAt(c, hand).value);
    }
  }

  lemma DeliveryHandsEvolve(db: Database, d: Delivery)
    requires Consistent(db) && H.NeverZero(d.env.commitOf)
    ensures HandsEvolve(db, After(db, d))
    ensures AllHonest(db, d.env.commitOf) ==> AllHonest(After(db, d), d.env.commitOf)
  {
    var o := StepOutcome(db, d.actor, d.command, d.op, d.env);
    StepKeepsConsistent(db, d.actor, d.command, d.op, d.env);
    OutcomeHandsEvolve(o, db, d.actor, Bound(d.command, d.op, d.env), d.env, Step(db, d.actor, d.command, d.op, d.env));
  }

  /** The contribution hash is the same function throughout. */
  ghost predicate OneHash(ds: seq<Delivery>, commitOf: H.CommitFunction) {
    H.NeverZero(commitOf) && forall i :: 0 <= i < |ds| ==> ds[i].env.commitOf == commitOf
  }

  lemma {:induction false} StoredHandsEvolve(db: Database, commitOf: H.CommitFunction, ds: seq<Delivery>)
    requires Consistent(db) && OneHash(ds, commitOf)
    ensures HandsEvolve(db, Reachable.Run(db, ds))
            && (AllHonest(db, commitOf) ==> AllHonest(Reachable.Run(db, ds), commitOf))
  {
    if ds == [] {
      SameHandsEvolve(db, db);
    } else {
      var before := Reachable.Run(db, ds[..|ds| - 1]);
      StoredHandsEvolve(db, commitOf, ds[..|ds| - 1]);
      RunsStayConsistent(db, ds[..|ds| - 1]);
      DeliveryHandsEvolve(before, ds[|ds| - 1]);
      HandsEvolveOn(db, before, Reachable.Run(db, ds));
    }
  }

  /** Commit before beacon for stored hands: whatever commands anybody sends, from any reachable store on, a hand's
      setup and commitments never change, its reveals match its commitments, its beacon comes after three reveals,
      and from the waiting phase on nothing contributed changes. */
  lemma {:induction false} StoredCommitBeforeBeacon(commitOf: H.CommitFunction, ds: seq<Delivery>,
                                                    more: seq<Delivery>, hand: Text)
    requires OneHash(ds, commitOf) && OneHash(more, commitOf) && hand in Reachable.Run(EMPTY_DATABASE, ds).hands
    ensures var db, later := Reachable.Run(EMPTY_DATABASE, ds), Reachable.Run(Reachable.Run(EMPTY_DATABASE, ds), more);
            && HandAt(db, hand).Some? && HandAt(later, hand).Some?
            && Evolves(HandAt(db, hand).value, HandAt(later, hand).value) && Honest(HandAt(later, hand).value, commitOf)
  {
    EmptyIsConsistent();
    StoredHandsEvolve(EMPTY_DATABASE, commitOf, ds);
    RunsStayConsistent(EMPTY_DATABASE, ds);
    StoredHandsEvolve(Reachable.Run(EMPTY_DATABASE, ds), commitOf, more);
  }

  // ------------------------------------------------------------------ contributions precede publication

  /** The clock reading that a contribution is checked against. */
  function ClockOf(d: Delivery): int {
    if d.op.SubmitHandCommit? then d.env.later else d.env.now
  }

  /** The delivery is a contribution to the hand, read by a clock before the plan's round is published. */
  predicate Early(d: Delivery, hand: Text, plan: H.BeaconPlan) {
    && (d.op.SubmitHandCommit? || d.op.SubmitHandReveal? || d.op.SubmitHandContribution?)
    && d.command.aggregateId == hand
    && Publication(plan).Ok? && ClockOf(d) < Publication(plan).value
  }

  lemma IntendedContribution(e: Effect, d: Delivery, command: Command)
    requires Intended(e, d.actor, command, d.op, d.env) && (e.HandChanged? || e.HandEnded?) && H.IsContribution(e.act)
    ensures d.op.SubmitHandCommit? || d.op.SubmitHandReveal? || d.op.SubmitHandContribution?
    ensures CheckDeadline(e.h.plan, ClockOf(d)).None?
  {
  }

  /** An action that changes what seats have contributed is a contribution. */
  lemma OnlyContributionsContribute(h: H.HandState, commitOf: H.CommitFunction, act: H.HandAction)
    requires H.Apply(h, commitOf, act).Done? && H.Apply(h, commitOf, act).state.contributions != h.contributions
    ensures H.IsContribution(act)
  {
    if !H.IsContribution(act) {
      LifecycleIsStep(h, commitOf, act);
    }
  }

  lemma ContributingEffect(e: Effect, db: Database, commitOf: H.CommitFunction, tx: Database, events: seq<Event>,
                           hand: Text)
    requires Loadable(db) && Loadable(tx) && Caused(e, db, commitOf, tx, events) && hand in db.hands
    requires HandAt(db, hand).Some? && HandAt(tx, hand).Some?
    requires HandAt(tx, hand).value.contributions != HandAt(db, hand).value.contributions
    ensures ActsOn(e, hand) && H.IsContribution(e.act) && HandAt(db, hand).value == e.h && e.h'.id == e.h.id
  {
    EffectOnHand(e, db, commitOf, tx, events, hand);
    OnlyContributionsContribute(e.h, commitOf, e.act);
    EffectKeepsNames(e, db, commitOf, tx, events);
  }

  lemma EarlyByIntent(e: Effect, d: Delivery, hand: Text)
    requires Intended(e, d.actor, Bound(d.command, d.op, d.env), d.op, d.env) && Subject(e).1 == d.command.aggregateId
    requires ActsOn(e, hand) && H.IsContribution(e.act) && e.h'.id == e.h.id && e.h.plan.provider == QUICKNET
    ensures Early(d, hand, e.h.plan)
  {
    IntendedContribution(e, d, Bound(d.command, d.op, d.env));
  }

  /** The effect behind a newly accepted delivery, as the delivery asked for it. */
  lemma AcceptedEffect(db: Database, d: Delivery)
      returns (e: Effect, claimed: Database, tx: Database, events: seq<Event>)
    requires Consistent(db) && H.NeverZero(d.env.commitOf) && NewlyAccepted(Reply(db, d))
    ensures Loadable(After(db, d)) && claimed == db.(ledger := claimed.ledger)
    ensures Caused(e, claimed, d.env.commitOf, tx, events)
    ensures After(db, d).rooms == tx.rooms && After(db, d).hands == tx.hands
    ensures Intended(e, d.actor, Bound(d.command, d.op, d.env), d.op, d.env) && Subject(e).1 == d.command.aggregateId
  {
    StepKeepsConsistent(db, d.actor, d.command, d.op, d.env);
    claimed := ClaimedBy(db, d.actor, Bound(d.command, d.op, d.env));
    e := AcceptedDidWhatItAsks(db, d);
    tx, events :| Caused(e, claimed, d.env.commitOf, tx, events)
                  && After(db, d).rooms == tx.rooms && After(db, d).hands == tx.hands;
  }

  /** A delivery that changes what a quicknet hand's seats have contributed is an early contribution. */
  lemma DeliveryContributes(db: Database, d: Delivery, hand: Text)
    requires Consistent(db) && H.NeverZero(d.env.commitOf) && hand in db.hands && hand in After(db, d).hands
    requires HandAt(db, hand).Some? && HandAt(After(db, d), hand).Some?
    requires HandAt(db, hand).value.plan.provider == QUICKNET
    requires HandAt(After(db, d), hand).value.contributions != HandAt(db, hand).value.contributions
    ensures Early(d, hand, HandAt(db, hand).value.plan)
  {
    StepFollows(db, d);
    if !NewlyAccepted(Reply(db, d)) {
      SameHandAt(db, After(db, d), hand);
    } else {
      var e, claimed, tx, events := AcceptedEffect(db, d);
      EffectOfDelivery(e, d, db, claimed, tx, After(db, d), events, hand);
    }
  }

  lemma EffectOfDelivery(e: Effect, d: Delivery, db: Database, claimed: Database, tx: Database, later: Database,
                         events: seq<Event>, hand: Text)
    requires Loadable(db) && Loadable(later) && claimed == db.(ledger := claimed.ledger) && hand in db.hands
    requires Caused(e, claimed, d.env.commitOf, tx, events) && later.rooms == tx.rooms && later.hands == tx.hands
    requires Intended(e, d.actor, Bound(d.command, d.op, d.env), d.op, d.env) && Subject(e).1 == d.command.aggregateId
    requires HandAt(db, hand).Some? && HandAt(later, hand).Some? && HandAt(db, hand).value.plan.provider == QUICKNET
    requires HandAt(later, hand).value.contributions != HandAt(db, hand).value.contributions
    ensures Early(d, hand, HandAt(db, hand).value.plan)
  {
    SameRows(db, claimed);
    SameRows(later, tx);
    SameHandAt(db, claimed, hand);
    SameHandAt(later, tx, hand);
    ContributingEffect(e, claimed, d.env.commitOf, tx, events, hand);
    EarlyByIntent(e, d, hand);
  }

  /** What a delivery may do to a hand: a new hand is empty, and the contributions of a quicknet hand change only by
      an early contribution. */
  predicate Contributes(before: Option<H.HandState>, after: Option<H.HandState>, d: Delivery, hand: Text) {
    after.Some? ==>
      if before.None? then after.value.contributions == [H.NOTHING, H.NOTHING, H.NOTHING]
      else
        && after.value.plan == before.value.plan
        && (before.value.plan.provider == QUICKNET && after.value.contributions != before.value.contributions
            ==> Early(d, hand, before.value.plan))
  }

  lemma DeliveryKeepsContributing(db: Database, d: Delivery, hand: Text)
    requires Consistent(db) && H.NeverZero(d.env.commitOf)
    ensures Contributes(HandAt(db, hand), HandAt(After(db, d), hand), d, hand)
  {
    if hand in db.hands {
      DeliveryHandsEvolve(db, d);
      var h, h' := HandAt(db, hand).value, HandAt(After(db, d), hand).value;
      if h.plan.provider == QUICKNET && h'.contributions != h.contributions {
        DeliveryContributes(db, d, hand);
      }
    } else if hand in After(db, d).hands {
      DeliveryAddsEmptyHand(db, d, hand);
    }
  }

  /** The delivery, an early contribution to the hand, gave seat i what it has in h. */
  predicate Sets(before: Option<H.HandState>, after: Option<H.HandState>, d: Delivery, hand: Text, i: nat,
                 h: H.HandState)
    requires i < 3
  {
    && Early(d, hand, h.plan)
    && before.Some? && before.value.contributions[i] != h.contributions[i]
    && after.Some? && after.value.contributions[i] == h.contributions[i]
  }

  lemma SetsAlike(before: Option<H.HandState>, after: Option<H.HandState>, d: Delivery, hand: Text, i: nat,
                  h: H.HandState, h': H.HandState)
    requires i < 3 && Sets(before, after, d, hand, i, h)
    requires h'.plan == h.plan && h'.contributions[i] == h.contributions[i]
    ensures Sets(before, after, d, hand, i, h')
  {
  }

  /** What the last delivery did to a seat that has a contribution in the end. */
  lemma LastDelivery(before: Option<H.HandState>, d: Delivery, hand: Text, i: nat, h: H.HandState)
    requires Contributes(before, Some(h), d, hand) && i < 3
    requires h.plan.provider == QUICKNET && h.contributions[i] != H.NOTHING
    ensures before.Some? && before.value.plan == h.plan
    ensures before.value.contributions[i] != h.contributions[i] ==> Sets(before, Some(h), d, hand, i, h)
  {
  }

  /** Going back from a contribution through what the hand was at each time, one finds the delivery that made it. */
  lemma {:induction false} SettingIsFound(states: seq<Option<H.HandState>>, ds: seq<Delivery>, hand: Text, i: nat,
                                          h: H.HandState) returns (j: nat)
    requires |states| == |ds| + 1 && states[0].None? && states[|ds|] == Some(h) && i < 3
    requires forall k :: 0 <= k < |ds| ==> Contributes(states[k], states[k + 1], ds[k], hand)
    requires h.plan.provider == QUICKNET && h.contributions[i] != H.NOTHING
    ensures j < |ds| && Sets(states[j], states[j + 1], ds[j], hand, i, h)
  {
    var n := |ds| - 1;
    LastDelivery(states[n], ds[n], hand, i, h);
    var before := states[n].value;
    if before.contributions[i] == h.contributions[i] {
      j := SettingIsFound(states[..n + 1], ds[..n], hand, i, before);
      SetsAlike(states[j], states[j + 1], ds[j], hand, i, before, h);
    } else {
      j := n;
    }
  }

  /** The hand as the first k deliveries leave it. */
  function StateAt(ds: seq<Delivery>, k: nat, hand: Text): Option<H.HandState>
    requires k <= |ds|
  {
    HandAt(Reachable.Run(EMPTY_DATABASE, ds[..k]), hand)
  }

  lemma {:induction false} RunContributes(ds: seq<Delivery>, commitOf: H.CommitFunction, k: nat, hand: Text)
    requires OneHash(ds, commitOf) && k < |ds|
    ensures Contributes(StateAt(ds, k, hand), StateAt(ds, k + 1, hand), ds[k], hand)
  {
    EmptyIsConsistent();
    RunsStayConsistent(EMPTY_DATABASE, ds[..k]);
    assert ds[..k + 1][..k] == ds[..k];
    DeliveryKeepsContributing(Reachable.Run(EMPTY_DATABASE, ds[..k]), ds[k], hand);
  }

  /** In every reachable store each contribution of a quicknet hand was made by a delivery whose clock reading
      preceded the publication of the hand's round. */
  lemma {:induction false} StoredContributionsAreEarly(commitOf: H.CommitFunction, ds: seq<Delivery>, hand: Text,
                                                       i: nat, h: H.HandState) returns (j: nat)
    requires OneHash(ds, commitOf) && i < 3 && HandAt(Reachable.Run(EMPTY_DATABASE, ds), hand) == Some(h)
    requires h.plan.provider == QUICKNET && h.contributions[i] != H.NOTHING
    ensures j < |ds| && Sets(StateAt(ds, j, hand), StateAt(ds, j + 1, hand), ds[j], hand, i, h)
  {
    var states := seq(|ds| + 1, k requires 0 <= k <= |ds| => StateAt(ds, k, hand));
    forall k | 0 <= k < |ds| ensures Contributes(states[k], states[k + 1], ds[k], hand) {
      RunContributes(ds, commitOf, k, hand);
    }
    assert ds[..|ds|] == ds;
    j := SettingIsFound(states, ds, hand, i, h);
  }

  /** A hand that a delivery adds has no contributions, and the plan that was prepared for it. */
  lemma DeliveryAddsEmptyHand(db: Database, d: Delivery, hand: Text)
    requires Consistent(db) && H.NeverZero(d.env.commitOf) && hand !in db.hands && hand in After(db, d).hands
    ensures HandAt(After(db, d), hand).Some?
    ensures HandAt(After(db, d), hand).value.contributions == [H.NOTHING, H.NOTHING, H.NOTHING]
    ensures d.op.StartRoomHand? && d.env.setup.Ok? && After(db, d).hands[hand].body.plan == d.env.setup.value.plan
  {
    StepFollows(db, d);
    var e, claimed, tx, events := AcceptedEffect(db, d);
    AddedHand(e, d, claimed, tx, After(db, d), events, hand);
  }

  lemma AddedHand(e: Effect, d: Delivery, claimed: Database, tx: Database, later: Database, events: seq<Event>,
                  hand: Text)
    requires Loadable(later) && hand !in claimed.hands && hand in tx.hands
    requires Caused(e, claimed, d.env.commitOf, tx, events) && later.rooms == tx.rooms && later.hands == tx.hands
    requires Intended(e, d.actor, Bound(d.command, d.op, d.env), d.op, d.env)
    ensures HandAt(later, hand).Some? && HandAt(later, hand).value.contributions == [H.NOTHING, H.NOTHING, H.NOTHING]
    ensures d.op.StartRoomHand? && d.env.setup.Ok? && later.hands[hand].body.plan == d.env.setup.value.plan
  {
    SameRows(later, tx);
    SameHandAt(tx, later, hand);
    EffectAddsHand(e, claimed, d.env.commitOf, tx, events, hand);
    HandIsLoaded(later, hand);
    IntendedStart(e, d, Bound(d.command, d.op, d.env));
  }

  lemma IntendedStart(e: Effect, d: Delivery, command: Command)
    requires Intended(e, d.actor, command, d.op, d.env) && e.HandStarted?
    ensures d.op.StartRoomHand? && d.env.setup.Ok? && e.h'.plan == d.env.setup.value.plan
  {
  }

  // ------------------------------------------------------------------ one side at every instant

  ghost predicate AllSchedulable(db: Database) {
    forall hand :: hand in db.hands ==> Schedulable(db.hands[hand].body.plan)
  }

  /** Hands are set up by the provider. */
  ghost predicate ByProvider(d: Delivery) {
    d.op.StartRoomHand? && d.env.setup.Ok? ==> Provided(d.env.setup.value.plan)
  }

  lemma DeliveryKeepsSchedulable(db: Database, d: Delivery)
    requires Consistent(db) && H.NeverZero(d.env.commitOf) && ByProvider(d) && AllSchedulable(db)
    ensures AllSchedulable(After(db, d))
  {
    DeliveryHandsEvolve(db, d);
    StepKeepsConsistent(db, d.actor, d.command, d.op, d.env);
    forall hand | hand in After(db, d).hands ensures Schedulable(After(db, d).hands[hand].body.plan) {
      HandIsLoaded(After(db, d), hand);
      if hand in db.hands {
        HandIsLoaded(db, hand);
      } else {
        DeliveryAddsEmptyHand(db, d, hand);
        ProvidedIsSchedulable(d.env.setup.value.plan);
      }
    }
  }

  lemma {:induction false} StoredHandsAreSchedulable(ds: seq<Delivery>)
    requires Hashing(ds) && forall i :: 0 <= i < |ds| ==> ByProvider(ds[i])
    ensures AllSchedulable(Reachable.Run(EMPTY_DATABASE, ds))
  {
    if ds != [] {
      StoredHandsAreSchedulable(ds[..|ds| - 1]);
      EmptyIsConsistent();
      RunsStayConsistent(EMPTY_DATABASE, ds[..|ds| - 1]);
      DeliveryKeepsSchedulable(Reachable.Run(EMPTY_DATABASE, ds[..|ds| - 1]), ds[|ds| - 1]);
    }
  }

  lemma SchedulableHasOneSide(t: H.HandSnapshot, now: int, a: Answers, dealer: Dealer)
    requires Schedulable(t.body.plan)
    ensures CheckDeadline(t.body.plan, now).None? <==> !DealerMayAbort(t.body.plan, now)
    ensures InFairness(t.body.phase) ==> !Choose(t, a, dealer).Fail?
  {
    ExactlyOneSide(t.body.plan, now);
    PublicationDefined(t.body.plan);
  }

  /** With the repository's provider every hand of every reachable store has exactly one side at every instant, and
      while it collects contributions it never stops the dealer's page for want of a round. */
  lemma {:induction false} StoredHandsHaveOneSide(ds: seq<Delivery>, hand: Text, now: int, a: Answers, dealer: Dealer)
    requires Hashing(ds) && forall i :: 0 <= i < |ds| ==> ByProvider(ds[i])
    requires hand in Reachable.Run(EMPTY_DATABASE, ds).hands
    ensures var t := Reachable.Run(EMPTY_DATABASE, ds).hands[hand];
            && (CheckDeadline(t.body.plan, now).None? <==> !DealerMayAbort(t.body.plan, now))
            && (InFairness(t.body.phase) ==> !Choose(t, a, dealer).Fail?)
  {
    StoredHandsAreSchedulable(ds);
    SchedulableHasOneSide(Reachable.Run(EMPTY_DATABASE, ds).hands[hand], now, a, dealer);
  }
}
