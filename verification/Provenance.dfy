/** Where everything in a stored room or hand comes from: the accepted command that put it there. */
module Provenance {
  import opened Bytes
  import opened Text
  import opened Domain
  import opened Store
  import opened Handlers
  import opened Service
  import opened Effects
  import opened Acceptance
  import opened StoreInvariant
  import opened Ledger
  import opened Reachable
  import opened StoredHands
  import HandMeaning
  import R = RoomModel
  import H = HandModel

  // ------------------------------------------------------------------ one delivery and one hand

  /** The hand action that the delivery's command and its environment stand for. */
  predicate Asks(d: Delivery, a: H.HandAction) {
    var expected := d.command.expectedVersion;
    match d.op
    case SubmitHandCommit(commitment) => a == H.CommitAction(d.actor, commitment, expected)
    case SubmitHandReveal =>
      && d.env.digest.Some? && d.env.recordId.Ok?
      && a == H.RevealAction(d.actor, d.env.digest.value, d.env.recordId.value, expected)
    case SubmitHandContribution =>
      && d.env.digest.Some? && d.env.recordId.Ok?
      && a == H.CustodiedAction(d.actor, d.env.digest.value, d.env.recordId.value, expected)
    case LockHandBeacon => d.env.beacon.Ok? && a == H.LockAction(d.env.beacon.value, expected)
    case MarkHandDealt => a == H.DealtAction(expected)
    case StartHandPlaying => a == H.PlayAction(expected)
    case StartHandSettlement => a == H.SettleAction(expected)
    case CompleteHand => a == H.CompleteAction(expected)
    case CancelHand(reason) => a == H.CancelAction(reason, expected)
    case AbortHand(reason) => a == H.AbortAction(reason, expected)
    case ExpireHand(reason, _) => a == H.ExpireAction(reason, expected)
    case _ => false
  }

  /** The hand, by the name and in the mode asked for, has the setup that was prepared, and nothing else yet. */
  predicate StartedAs(d: Delivery, h: H.HandState) {
    && d.op.StartRoomHand? && d.env.setup.Ok? && h.id == d.op.handId && h.mode == d.op.mode
    && SetUpAs(h, d.env.setup.value) && h.roomId == d.command.aggregateId
    && h.phase == H.Committing && h.beacon.None? && h.contributions == [H.NOTHING, H.NOTHING, H.NOTHING]
    && h.reason == [] && h.version == 1
  }

  /** What a delivery makes of a hand: nothing, a new hand, or the outcome of the action that it asks for. */
  ghost predicate Makes(before: Option<H.HandState>, after: Option<H.HandState>, d: Delivery, accepted: bool,
                        hand: Text) {
    || after == before
    || (accepted && before.None? && after.Some? && StartedAs(d, after.value))
    || (accepted && before.Some? && after.Some? && d.command.aggregateId == hand
        && exists a :: Asks(d, a) && H.Apply(before.value, d.env.commitOf, a).Done?
                       && after.value == H.Apply(before.value, d.env.commitOf, a).state)
  }

  lemma IntendedIsAsked(e: Effect, d: Delivery, command: Command)
    requires Intended(e, d.actor, command, d.op, d.env) && (e.HandChanged? || e.HandEnded?)
    requires command.expectedVersion == d.command.expectedVersion
    ensures Asks(d, e.act)
  {
  }

  lemma IntendedIsStarted(e: Effect, d: Delivery, db: Database, commitOf: H.CommitFunction, tx: Database,
                          events: seq<Event>)
    requires Intended(e, d.actor, Bound(d.command, d.op, d.env), d.op, d.env) && e.HandStarted?
    requires Caused(e, db, commitOf, tx, events) && Subject(e).1 == d.command.aggregateId
    ensures StartedAs(d, e.h')
  {
    R.StartHandEvent(e.s, e.actor, e.h'.id, e.s.version);
  }

  /** What the effect behind an accepted delivery makes of a hand. */
  lemma EffectMakes(e: Effect, d: Delivery, db: Database, claimed: Database, tx: Database, later: Database,
                    events: seq<Event>, hand: Text)
    requires Loadable(db) && Loadable(later) && claimed == db.(ledger := claimed.ledger)
    requires Caused(e, claimed, d.env.commitOf, tx, events) && later.rooms == tx.rooms && later.hands == tx.hands
    requires Intended(e, d.actor, Bound(d.command, d.op, d.env), d.op, d.env) && Subject(e).1 == d.command.aggregateId
    ensures Makes(HandAt(db, hand), HandAt(later, hand), d, true, hand)
  {
    SameRows(db, claimed);
    SameRows(later, tx);
    SameHandAt(db, claimed, hand);
    SameHandAt(later, tx, hand);
    EffectKeepsNames(e, claimed, d.env.commitOf, tx, events);
    if hand in claimed.hands {
      EffectOnHand(e, claimed, d.env.commitOf, tx, events, hand);
      if ActsOn(e, hand) {
        IntendedIsAsked(e, d, Bound(d.command, d.op, d.env));
      }
    } else if hand in tx.hands {
      EffectAddsHand(e, claimed, d.env.commitOf, tx, events, hand);
      IntendedIsStarted(e, d, claimed, d.env.commitOf, tx, events);
    }
  }

  lemma DeliveryMakes(db: Database, d: Delivery, hand: Text)
    requires Consistent(db) && H.NeverZero(d.env.commitOf)
    ensures Makes(HandAt(db, hand), HandAt(After(db, d), hand), d, NewlyAccepted(Reply(db, d)), hand)
  {
    StepFollows(db, d);
    if !NewlyAccepted(Reply(db, d)) {
      SameHandAt(db, After(db, d), hand);
    } else {
      var e, claimed, tx, events := AcceptedEffect(db, d);
      EffectMakes(e, d, db, claimed, tx, After(db, d), events, hand);
    }
  }

  // ------------------------------------------------------------------ what can put it there

  /** A beacon that is there afterwards, and was not before, is the verified value of a locking command. */
  lemma BeaconIsLocked(before: Option<H.HandState>, h: H.HandState, d: Delivery, accepted: bool, hand: Text)
    requires Makes(before, Some(h), d, accepted, hand) && h.beacon.Some?
    requires before.None? || before.value.beacon != h.beacon
    ensures accepted && d.op.LockHandBeacon? && d.command.aggregateId == hand && d.env.beacon.Ok?
    ensures var v := d.env.beacon.value;
            && h.beacon == Some(H.BeaconValue(v.provider, v.round, v.digest, Trim(v.proofRef)))
            && h.plan == H.BeaconPlan(v.provider, v.round)
  {
    var a :| Asks(d, a) && H.Apply(before.value, d.env.commitOf, a).Done?
             && h == H.Apply(before.value, d.env.commitOf, a).state;
    BeaconIsOwn(before.value, d, a);
  }

  lemma BeaconIsOwn(h: H.HandState, d: Delivery, a: H.HandAction)
    requires Asks(d, a) && H.Apply(h, d.env.commitOf, a).Done?
    requires H.Apply(h, d.env.commitOf, a).state.beacon != h.beacon
    ensures d.op.LockHandBeacon? && d.env.beacon.Ok?
    ensures var v, h' := d.env.beacon.value, H.Apply(h, d.env.commitOf, a).state;
            && h'.beacon == Some(H.BeaconValue(v.provider, v.round, v.digest, Trim(v.proofRef)))
            && h'.plan == H.BeaconPlan(v.provider, v.round)
  {
    if a.LockAction? {
      HandMeaning.LockingKeepsValue(h, a.value, a.expected);
    } else {
      BeaconUntouched(h, d.env.commitOf, a);
    }
  }

  lemma BeaconUntouched(h: H.HandState, commitOf: H.CommitFunction, a: H.HandAction)
    requires H.Apply(h, commitOf, a).Done? && !a.LockAction?
    ensures H.Apply(h, commitOf, a).state.beacon == h.beacon
  {
    match a
    case CommitAction(actor, commitment, expected) =>
      var i := HandMeaning.CommittingRecords(h, actor, commitment, expected);
    case RevealAction(actor, digest, ref, expected) =>
      var i := HandMeaning.RevealingRecords(h, commitOf, actor, digest, ref, expected);
    case CustodiedAction(actor, digest, ref, expected) =>
      var i := HandMeaning.CustodiedRecords(h, commitOf, actor, digest, ref, expected);
    case CancelAction(_, _) => HandMeaning.StoppingGivesReason(h, commitOf, a);
    case AbortAction(_, _) => HandMeaning.StoppingGivesReason(h, commitOf, a);
    case ExpireAction(_, _) => HandMeaning.StoppingGivesReason(h, commitOf, a);
    case _ => HandMeaning.AdvancingChangesPhase(h, commitOf, a);
  }

  /** The contribution that the delivery makes to the seat of its actor. */
  predicate Contributed(h: H.HandState, d: Delivery, i: nat)
    requires i < 3
  {
    var c := h.contributions[i];
    && HandMeaning.Holds(h, d.actor, i)
    && match d.op
       case SubmitHandCommit(commitment) => c == H.NOTHING.(commitment := commitment)
       case SubmitHandReveal =>
         && d.env.digest.Some? && d.env.recordId.Ok?
         && c == H.Contribution(d.env.commitOf(h.id, i + 1, d.env.digest.value), true, d.env.digest.value,
                                Trim(d.env.recordId.value))
       case SubmitHandContribution =>
         && d.env.digest.Some? && d.env.recordId.Ok?
         && c == H.Contribution(d.env.commitOf(h.id, i + 1, d.env.digest.value), true, d.env.digest.value,
                                Trim(d.env.recordId.value))
       case _ => false
  }

  lemma ContributionIsOwn(h: H.HandState, d: Delivery, a: H.HandAction, i: nat)
    requires H.Invariant(h) && Asks(d, a) && H.Apply(h, d.env.commitOf, a).Done? && i < 3
    requires H.Apply(h, d.env.commitOf, a).state.contributions[i] != h.contributions[i]
    ensures Contributed(H.Apply(h, d.env.commitOf, a).state, d, i)
  {
    match a
    case CommitAction(actor, commitment, expected) =>
      var j := HandMeaning.CommittingRecords(h, actor, commitment, expected);
      HandLemmas.UnrevealedWhileCommitting(h);
    case RevealAction(actor, digest, ref, expected) =>
      var j := HandMeaning.RevealingRecords(h, d.env.commitOf, actor, digest, ref, expected);
    case CustodiedAction(actor, digest, ref, expected) =>
      var j := HandMeaning.CustodiedRecords(h, d.env.commitOf, actor, digest, ref, expected);
    case _ => HandLemmas.LifecycleIsStep(h, d.env.commitOf, a);
  }

  /** A seat's contribution that is there afterwards, and was not before, is what the player in that seat sent. */
  lemma ContributionIsSent(before: Option<H.HandState>, h: H.HandState, d: Delivery, accepted: bool, hand: Text, i: nat)
    requires Makes(before, Some(h), d, accepted, hand) && i < 3 && h.contributions[i] != H.NOTHING
    requires before.Some? ==> H.Invariant(before.value)
    requires before.None? || before.value.contributions[i] != h.contributions[i]
    ensures accepted && d.command.aggregateId == hand && Contributed(h, d, i)
  {
    var a :| Asks(d, a) && H.Apply(before.value, d.env.commitOf, a).Done?
             && h == H.Apply(before.value, d.env.commitOf, a).state;
    ContributionIsOwn(before.value, d, a, i);
  }

  /** The ending that the delivery asks for, with its reason. */
  predicate EndedBy(h: H.HandState, d: Delivery) {
    match d.op
    case CompleteHand => h.phase == H.Completed && h.reason == []
    case CancelHand(reason) => h.phase == H.Cancelled && h.reason == Trim(reason)
    case AbortHand(reason) => h.phase == H.Aborted && h.reason == Trim(reason)
    case ExpireHand(reason, _) => h.phase == H.Expired && h.reason == Trim(reason)
    case _ => false
  }

  lemma OnlyEndingsEnd(h: H.HandState, d: Delivery, a: H.HandAction)
    requires H.Invariant(h) && Asks(d, a) && H.Apply(h, d.env.commitOf, a).Done?
    requires H.Terminal(H.Apply(h, d.env.commitOf, a).state.phase)
    ensures EndedBy(H.Apply(h, d.env.commitOf, a).state, d)
  {
    match a
    case CommitAction(actor, commitment, expected) =>
      var j := HandMeaning.CommittingRecords(h, actor, commitment, expected);
    case RevealAction(actor, digest, ref, expected) =>
      var j := HandMeaning.RevealingRecords(h, d.env.commitOf, actor, digest, ref, expected);
    case CustodiedAction(actor, digest, ref, expected) =>
      var j := HandMeaning.CustodiedRecords(h, d.env.commitOf, actor, digest, ref, expected);
    case LockAction(value, expected) => HandMeaning.LockingKeepsValue(h, value, expected);
    case CancelAction(_, _) => HandMeaning.StoppingGivesReason(h, d.env.commitOf, a);
    case AbortAction(_, _) => HandMeaning.StoppingGivesReason(h, d.env.commitOf, a);
    case ExpireAction(_, _) => HandMeaning.StoppingGivesReason(h, d.env.commitOf, a);
    case _ => HandMeaning.AdvancingChangesPhase(h, d.env.commitOf, a);
  }

  lemma EndingIsAsked(before: Option<H.HandState>, h: H.HandState, d: Delivery, accepted: bool, hand: Text)
    requires Makes(before, Some(h), d, accepted, hand) && H.Terminal(h.phase)
    requires before.Some? ==> H.Invariant(before.value) && !H.Terminal(before.value.phase)
    ensures accepted && d.command.aggregateId == hand && EndedBy(h, d)
  {
    var a :| Asks(d, a) && H.Apply(before.value, d.env.commitOf, a).Done?
             && h == H.Apply(before.value, d.env.commitOf, a).state;
    OnlyEndingsEnd(before.value, d, a);
  }

  // ------------------------------------------------------------------ the protected records

  /** The command reveals a contribution, whose record is to be kept. */
  predicate KeepsRecord(op: Operation) {
    op.SubmitHandReveal? || op.SubmitHandContribution?
  }

  lemma StoringKeepsRecord(db: Database, stored: H.HandSnapshot, t: Transition<H.HandState>, id: Text, kept: bool)
    requires StoreContribution(db, stored, t, id, kept).Success?
    ensures kept && id !in db.records && StoreContribution(db, stored, t, id, kept).db.records == db.records + {id}
  {
  }

  lemma RevealKeepsRecord(db: Database, actor: Text, command: Command, env: Environment)
    requires HandleReveal(db, actor, command, env).Success?
    ensures env.recordId.Ok? && env.recordSealed && env.recordId.value !in db.records
    ensures HandleReveal(db, actor, command, env).db.records == db.records + {env.recordId.value}
  {
    var stored := db.hands[command.aggregateId];
    StoringKeepsRecord(db, stored, H.SubmitReveal(H.Restore(stored).value, env.commitOf, actor, env.digest.value,
                                                  env.recordId.value, command.expectedVersion),
                       env.recordId.value, env.recordSealed);
  }

  lemma CustodiedKeepsRecord(db: Database, actor: Text, command: Command, env: Environment)
    requires HandleContribution(db, actor, command, env).Success?
    ensures env.recordId.Ok? && env.recordSealed && env.recordId.value !in db.records
    ensures HandleContribution(db, actor, command, env).db.records == db.records + {env.recordId.value}
  {
    var stored := db.hands[command.aggregateId];
    StoringKeepsRecord(db, stored, H.SubmitCustodied(H.Restore(stored).value, env.commitOf, actor, env.digest.value,
                                                     env.recordId.value, command.expectedVersion),
                       env.recordId.value, env.recordSealed);
  }

  lemma EndingLeavesRecords(db: Database, command: Command, op: Operation, a: H.HandAction, env: Environment)
    ensures HandleTerminate(db, command, op, a, env).Success?
            ==> HandleTerminate(db, command, op, a, env).db.records == db.records
  {
  }

  lemma RoomsLeaveRecords(db: Database, actor: Text, command: Command, op: Operation, env: Environment)
    requires ConcernsRoom(op) && Handle(db, actor, command, op, env).Success?
    ensures Handle(db, actor, command, op, env).db.records == db.records
  {
  }

  lemma OthersLeaveRecords(db: Database, actor: Text, command: Command, op: Operation, env: Environment)
    requires !KeepsRecord(op) && Handle(db, actor, command, op, env).Success?
    ensures Handle(db, actor, command, op, env).db.records == db.records
  {
    if ConcernsRoom(op) {
      RoomsLeaveRecords(db, actor, command, op, env);
    } else if EndingOperation(op) {
      EndingLeavesRecords(db, command, op, EndingActionOf(op, command.expectedVersion), env);
    }
  }

  lemma SettlingKeepsRecords(db: Database, actor: Text, command: Command, env: Environment, handled: Handled)
    requires KeyOf(actor, command) in handled.db.ledger && KeyOf(actor, command) !in db.ledger
    requires CleanRejection(ClaimedBy(db, actor, command), handled)
    ensures var (db', r) := Attempt(db, actor, command, env, handled);
            db'.records == (if NewlyAccepted(r) then handled.db.records else db.records)
            && (NewlyAccepted(r) ==> handled.Success?)
  {
  }

  /** Exactly an accepted reveal or custodied contribution keeps a record: under its new identifier, and sealed. */
  lemma RevealsLeaveRecords(db: Database, d: Delivery)
    requires Consistent(db)
    ensures if NewlyAccepted(Reply(db, d)) && KeepsRecord(d.op) then
              && d.env.recordId.Ok? && d.env.recordSealed && d.env.recordId.value !in db.records
              && After(db, d).records == db.records + {d.env.recordId.value}
            else After(db, d).records == db.records
  {
    var command := Bound(d.command, d.op, d.env);
    var claimed := Claim(db, KeyFor(d), command).0;
    var handled := Handle(claimed, d.actor, command, d.op, d.env);
    StepFollows(db, d);
    if KeyFor(d) !in db.ledger {
      SettlingKeepsRecords(db, d.actor, command, d.env, handled);
    } else {
      ReplayHasNoEffect(db, d);
    }
    if handled.Success? {
      HandledRecords(claimed, d.actor, command, d.op, d.env);
    }
  }

  lemma HandledRecords(db: Database, actor: Text, command: Command, op: Operation, env: Environment)
    requires Handle(db, actor, command, op, env).Success?
    ensures var later := Handle(db, actor, command, op, env).db;
            if KeepsRecord(op) then
              && env.recordId.Ok? && env.recordSealed && env.recordId.value !in db.records
              && later.records == db.records + {env.recordId.value}
            else later.records == db.records
  {
    if op.SubmitHandReveal? {
      RevealKeepsRecord(db, actor, command, env);
    } else if op.SubmitHandContribution? {
      CustodiedKeepsRecord(db, actor, command, env);
    } else {
      OthersLeaveRecords(db, actor, command, op, env);
    }
  }

  // ------------------------------------------------------------------ in every reachable store

  /** Going back to when the hand first was so since. */
  lemma {:induction false} SinceWhen(states: seq<Option<H.HandState>>, so: H.HandState -> bool) returns (j: nat)
    requires |states| > 0 && states[0].None? && states[|states| - 1].Some? && so(states[|states| - 1].value)
    ensures j + 1 < |states| && states[j + 1].Some? && so(states[j + 1].value)
    ensures states[j].None? || !so(states[j].value)
    ensures forall k :: j < k < |states| ==> states[k].Some? && so(states[k].value)
  {
    var n := |states| - 2;
    if states[n].Some? && so(states[n].value) {
      j := SinceWhen(states[..n + 1], so);
      assert forall k :: j < k <= n ==> states[..n + 1][k] == states[k];
    } else {
      j := n;
    }
  }

  /** Delivery k of the run is newly accepted when it comes. */
  predicate AcceptedAt(ds: seq<Delivery>, k: nat)
    requires k < |ds|
  {
    NewlyAccepted(Reply(Reachable.Run(EMPTY_DATABASE, ds[..k]), ds[k]))
  }

  lemma {:induction false} RunMakes(ds: seq<Delivery>, k: nat, hand: Text)
    requires Hashing(ds) && k < |ds|
    ensures Makes(StateAt(ds, k, hand), StateAt(ds, k + 1, hand), ds[k], AcceptedAt(ds, k), hand)
    ensures StateAt(ds, k, hand).Some? ==> H.Invariant(StateAt(ds, k, hand).value)
  {
    EveryReachableStoreIsConsistent(ds[..k]);
    assert ds[..k + 1][..k] == ds[..k];
    DeliveryMakes(Reachable.Run(EMPTY_DATABASE, ds[..k]), ds[k], hand);
    if StateAt(ds, k, hand).Some? {
      HandIsLoaded(Reachable.Run(EMPTY_DATABASE, ds[..k]), hand);
    }
  }

  /** What a hand keeps from its start on. */
  predicate SameSetup(g: H.HandState, h: H.HandState) {
    && g.mode == h.mode && g.id == h.id && g.roomId == h.roomId && g.seats == h.seats && g.plan == h.plan
    && g.serverCommitment == h.serverCommitment && g.revealKeyId == h.revealKeyId
    && g.revealPublicKey == h.revealPublicKey && g.revealKeyBoundAt == h.revealKeyBoundAt
  }

  lemma MakingKeepsSetup(before: H.HandState, after: Option<H.HandState>, d: Delivery, accepted: bool, hand: Text)
    requires Makes(Some(before), after, d, accepted, hand) && H.Invariant(before)
    ensures after.Some? && SameSetup(before, after.value) && (H.Terminal(before.phase) ==> after.value == before)
  {
    if after != Some(before) {
      var a :| Asks(d, a) && H.Apply(before, d.env.commitOf, a).Done?
               && after.value == H.Apply(before, d.env.commitOf, a).state;
      HandLemmas.TransitionsEvolve(before, d.env.commitOf, a);
    }
  }

  /** What step k of a run made of a hand that was sound before it. */
  ghost predicate StepMakes(states: seq<Option<H.HandState>>, accepted: seq<bool>, ds: seq<Delivery>, k: nat,
                            hand: Text)
    requires k < |ds| && |states| == |ds| + 1 && |accepted| == |ds|
  {
    && Makes(states[k], states[k + 1], ds[k], accepted[k], hand)
    && (states[k].Some? ==> H.Invariant(states[k].value))
  }

  lemma MadeSinceWhen(states: seq<Option<H.HandState>>, accepted: seq<bool>, ds: seq<Delivery>, hand: Text,
                      h: H.HandState, so: H.HandState -> bool)
      returns (j: nat, before: Option<H.HandState>, after: H.HandState)
    requires |states| == |ds| + 1 && |accepted| == |ds| && states[0].None? && states[|ds|] == Some(h) && so(h)
    requires forall k :: 0 <= k < |ds| ==> StepMakes(states, accepted, ds, k, hand)
    ensures j < |ds| && before == states[j] && Some(after) == states[j + 1] && so(after)
    ensures before.None? || (!so(before.value) && H.Invariant(before.value) && SameSetup(before.value, after))
    ensures before.Some? ==> !H.Terminal(before.value.phase)
    ensures Makes(before, Some(after), ds[j], accepted[j], hand)
  {
    j := SinceWhen(states, so);
    before, after := states[j], states[j + 1].value;
    assert StepMakes(states, accepted, ds, j, hand);
    if before.Some? {
      MakingKeepsSetup(before.value, Some(after), ds[j], accepted[j], hand);
    }
  }

  /** The delivery since which a stored hand has been so, and what it made of the hand. */
  lemma {:induction false} RunSinceWhen(ds: seq<Delivery>, hand: Text, h: H.HandState, so: H.HandState -> bool)
      returns (j: nat, before: Option<H.HandState>, after: H.HandState)
    requires Hashing(ds) && HandAt(Reachable.Run(EMPTY_DATABASE, ds), hand) == Some(h) && so(h)
    ensures j < |ds| && so(after)
    ensures before.None? || (!so(before.value) && H.Invariant(before.value) && SameSetup(before.value, after))
    ensures before.Some? ==> !H.Terminal(before.value.phase)
    ensures Makes(before, Some(after), ds[j], AcceptedAt(ds, j), hand)
  {
    var states, accepted := RunSteps(ds, hand);
    j, before, after := MadeSinceWhen(states, accepted, ds, hand, h, so);
  }

  /** What the hand was after each delivery, and which of them were newly accepted. */
  lemma {:induction false} RunSteps(ds: seq<Delivery>, hand: Text)
      returns (states: seq<Option<H.HandState>>, accepted: seq<bool>)
    requires Hashing(ds)
    ensures |states| == |ds| + 1 && |accepted| == |ds| && states[0].None?
    ensures states[|ds|] == HandAt(Reachable.Run(EMPTY_DATABASE, ds), hand)
    ensures forall k :: 0 <= k < |ds| ==> StepMakes(states, accepted, ds, k, hand)
    ensures forall k :: 0 <= k < |ds| ==> accepted[k] == AcceptedAt(ds, k)
  {
    states := seq(|ds| + 1, k requires 0 <= k <= |ds| => StateAt(ds, k, hand));
    accepted := seq(|ds|, k requires 0 <= k < |ds| => AcceptedAt(ds, k));
    assert ds[..|ds|] == ds;
    forall k | 0 <= k < |ds| ensures StepMakes(states, accepted, ds, k, hand) {
      RunMakes(ds, k, hand);
    }
  }

  lemma {:induction false} StoredHandIsSound(ds: seq<Delivery>, hand: Text, h: H.HandState)
    requires Hashing(ds) && HandAt(Reachable.Run(EMPTY_DATABASE, ds), hand) == Some(h)
    ensures H.Invariant(h)
  {
    EveryReachableStoreIsConsistent(ds);
    HandIsLoaded(Reachable.Run(EMPTY_DATABASE, ds), hand);
  }

  /** In every reachable store a hand's beacon is the value that was verified for an accepted locking command on that
      hand, for the hand's own plan, with its reference trimmed. */
  lemma {:induction false} StoredBeaconsWereVerified(ds: seq<Delivery>, hand: Text, h: H.HandState) returns (j: nat)
    requires Hashing(ds) && HandAt(Reachable.Run(EMPTY_DATABASE, ds), hand) == Some(h) && h.beacon.Some?
    ensures j < |ds| && AcceptedAt(ds, j) && ds[j].op.LockHandBeacon? && ds[j].command.aggregateId == hand
    ensures ds[j].env.beacon.Ok?
    ensures var v := ds[j].env.beacon.value;
            && h.beacon == Some(H.BeaconValue(v.provider, v.round, v.digest, Trim(v.proofRef)))
            && h.plan == H.BeaconPlan(v.provider, v.round)
  {
    var so: H.HandState -> bool := (g: H.HandState) => g.beacon == h.beacon;
    var k, before, after := RunSinceWhen(ds, hand, h, so);
    StoredHandIsSound(ds, hand, h);
    BeaconIsLocked(before, after, ds[k], AcceptedAt(ds, k), hand);
    j := k;
  }

  /** In every reachable store what a seat has contributed is what the account in that seat sent in an accepted command:
      the commitment it named, or the digest and the record that were opened for it. */
  lemma {:induction false} StoredContributionsWereSent(ds: seq<Delivery>, hand: Text, h: H.HandState, i: nat)
      returns (j: nat)
    requires Hashing(ds) && HandAt(Reachable.Run(EMPTY_DATABASE, ds), hand) == Some(h)
    requires i < 3 && h.contributions[i] != H.NOTHING
    ensures j < |ds| && AcceptedAt(ds, j) && ds[j].command.aggregateId == hand && Contributed(h, ds[j], i)
  {
    var so: H.HandState -> bool := (g: H.HandState) => g.contributions[i] == h.contributions[i] && SameSetup(g, h);
    var k, before, after := RunSinceWhen(ds, hand, h, so);
    ContributionIsSent(before, after, ds[k], AcceptedAt(ds, k), hand, i);
    SameContribution(after, h, ds[k], i);
    j := k;
  }

  lemma SameContribution(g: H.HandState, h: H.HandState, d: Delivery, i: nat)
    requires i < 3 && Contributed(g, d, i) && SameSetup(g, h) && g.contributions[i] == h.contributions[i]
    ensures Contributed(h, d, i)
  {
  }

  /** In every reachable store an ended hand was ended by an accepted command for that ending, with its reason. */
  lemma {:induction false} StoredEndingsWereAsked(ds: seq<Delivery>, hand: Text, h: H.HandState) returns (j: nat)
    requires Hashing(ds) && HandAt(Reachable.Run(EMPTY_DATABASE, ds), hand) == Some(h) && H.Terminal(h.phase)
    ensures j < |ds| && AcceptedAt(ds, j) && ds[j].command.aggregateId == hand && EndedBy(h, ds[j])
  {
    var so: H.HandState -> bool := (g: H.HandState) => g.phase == h.phase && g.reason == h.reason;
    var k, before, after := RunSinceWhen(ds, hand, h, so);
    EndingIsAsked(before, after, ds[k], AcceptedAt(ds, k), hand);
    j := k;
  }

  /** Every stored hand was started by an accepted command for it, with the setup that was prepared then. */
  lemma {:induction false} StoredHandsWereSetUp(ds: seq<Delivery>, hand: Text, h: H.HandState) returns (j: nat)
    requires Hashing(ds) && HandAt(Reachable.Run(EMPTY_DATABASE, ds), hand) == Some(h)
    ensures j < |ds| && AcceptedAt(ds, j) && ds[j].op.StartRoomHand? && ds[j].op.handId == h.id
    ensures ds[j].op.mode == h.mode && ds[j].command.aggregateId == h.roomId
    ensures ds[j].env.setup.Ok? && SetUpAs(h, ds[j].env.setup.value)
  {
    var so: H.HandState -> bool := (g: H.HandState) => SameSetup(g, h);
    var k, before, after := RunSinceWhen(ds, hand, h, so);
    j := k;
  }
}
