/** Dealing a hand starts its live game inside the transaction; when the transaction fails the start is undone. */
module Compensation {
  import opened Bytes
  import opened Text
  import opened Domain
  import opened Store
  import opened Handlers
  import opened Service
  import opened Effects
  import opened StoreInvariant
  import opened Ledger
  import opened Reachable
  import H = HandModel

  /** The durable store and the hands with a live game in memory. */
  datatype Live = Live(db: Database, running: set<Text>)

  /** Starting fails when the game is there already or the runtime cannot build it. */
  function Starts(l: Live, d: Delivery, runtimeOk: bool): bool {
    d.command.aggregateId !in l.running && runtimeOk
  }

  /** What a failed start answers, which may be an error that completes the command as rejected. */
  function StartError(env: Environment): Error {
    if env.liveStart.Some? then env.liveStart.value else Infrastructure
  }

  function WithStart(l: Live, d: Delivery, runtimeOk: bool): Delivery {
    d.(env := d.env.(liveStart := if Starts(l, d, runtimeOk) then None else Some(StartError(d.env))))
  }

  /** The handler gets as far as starting the game, and succeeds in it. */
  predicate Started(l: Live, d: Delivery, runtimeOk: bool) {
    var command := Bound(d.command, d.op, d.env);
    && IdentityValid(d.actor, command, d.op) && !d.env.storeFails && KeyFor(d) !in l.db.ledger
    && Fresh(command, d.env.now) && command.clientSeq > LastSequence(l.db, SequenceOf(d.actor, command))
    && d.command.aggregateId in l.db.hands && H.Restore(l.db.hands[d.command.aggregateId]).Ok?
    && H.Advance(H.Restore(l.db.hands[d.command.aggregateId]).value, H.Dealing, H.Bidding,
                 command.expectedVersion).Done?
    && Starts(l, d, runtimeOk)
  }

  /** One delivery with its effect on the games: MarkHandDealt starts one, and takes it back when the transaction
      does not commit, if taking back works. */
  function Happens(l: Live, d: Delivery, runtimeOk: bool, rollbackOk: bool): Live {
    if !d.op.MarkHandDealt? then Live(After(l.db, d), l.running)
    else
      var dealt := WithStart(l, d, runtimeOk);
      Live(After(l.db, dealt),
           if Started(l, d, runtimeOk) && (NewlyAccepted(Reply(l.db, dealt)) || !rollbackOk)
           then l.running + {d.command.aggregateId} else l.running)
  }

  predicate BeforeDealing(p: H.Phase) {
    p in {H.Committing, H.Revealing, H.WaitingBeacon, H.Dealing}
  }

  /** No hand has a live game before it has been dealt. */
  ghost predicate OnlyDealtRun(l: Live) {
    forall hand :: hand in l.running ==> hand in l.db.hands && !BeforeDealing(l.db.hands[hand].body.phase)
  }

  // ------------------------------------------------------------------ dealt hands stay dealt

  lemma NonEndingKeepsDealt(h: H.HandState, commitOf: H.CommitFunction, act: H.HandAction)
    requires !EndingAction(act) && H.Apply(h, commitOf, act).Done? && !BeforeDealing(h.phase)
    ensures !BeforeDealing(H.Apply(h, commitOf, act).state.phase)
  {
    match act
    case LockAction(_, _) =>
    case DealtAction(_) =>
    case PlayAction(_) =>
    case SettleAction(_) =>
    case _ => ContributionsStayLive(h, commitOf, act);
  }

  lemma EffectKeepsDealt(e: Effect, db: Database, commitOf: H.CommitFunction, tx: Database, events: seq<Event>,
                         hand: Text)
    requires Caused(e, db, commitOf, tx, events) && hand in db.hands && !BeforeDealing(db.hands[hand].body.phase)
    ensures hand in tx.hands && !BeforeDealing(tx.hands[hand].body.phase)
  {
    WrittenRows(e, db, commitOf, tx, events);
    if e.HandChanged? && e.h.id == hand {
      HandLoaded(db.hands[hand]);
      NonEndingKeepsDealt(e.h, commitOf, e.act);
      HandLemmas.EventsAreNumbered(e.h, commitOf, e.act);
    } else if e.HandEnded? {
      HandLemmas.EventsAreNumbered(e.h, commitOf, e.act);
    }
  }

  lemma OutcomeKeepsDealt(o: Outcome, db: Database, actor: Text, command: Command, env: Environment,
                          step: (Database, Result<CommandResult>), hand: Text)
    requires OutcomeOf(o, db, actor, command, env, step) && hand in db.hands
             && !BeforeDealing(db.hands[hand].body.phase)
    ensures hand in step.0.hands && !BeforeDealing(step.0.hands[hand].body.phase)
  {
    if o.AcceptedNow? {
      EffectKeepsDealt(o.e, ClaimedBy(db, actor, command), env.commitOf, o.tx, o.events, hand);
    }
  }

  ghost predicate AllStayDealt(db: Database, later: Database) {
    forall hand :: hand in db.hands && !BeforeDealing(db.hands[hand].body.phase) ==>
        hand in later.hands
        && !BeforeDealing(later.hands[hand].body.phase)
  }

  lemma OutcomeKeepsAllDealt(o: Outcome, db: Database, actor: Text, command: Command, env: Environment,
                             step: (Database, Result<CommandResult>))
    requires OutcomeOf(o, db, actor, command, env, step)
    ensures AllStayDealt(db, step.0)
  {
    forall hand | hand in db.hands && !BeforeDealing(db.hands[hand].body.phase)
      ensures hand in step.0.hands && !BeforeDealing(step.0.hands[hand].body.phase)
    {
      OutcomeKeepsDealt(o, db, actor, command, env, step, hand);
    }
  }

  lemma StepKeepsAllDealt(db: Database, d: Delivery)
    requires Consistent(db)
    ensures AllStayDealt(db, After(db, d))
  {
    var o := StepOutcome(db, d.actor, d.command, d.op, d.env);
    OutcomeKeepsAllDealt(o, db, d.actor, Bound(d.command, d.op, d.env), d.env,
                         Step(db, d.actor, d.command, d.op, d.env));
  }

  // ------------------------------------------------------------------ the deal is atomic

  /** An accepted deal had its hand loaded in the dealing phase, its game started, and left it in bidding. */
  lemma HandledDeal(db: Database, command: Command, env: Environment)
    requires HandleDealt(db, command, env).Success?
    ensures env.liveStart.None? && command.aggregateId in db.hands && H.Restore(db.hands[command.aggregateId]).Ok?
    ensures var t := H.Advance(H.Restore(db.hands[command.aggregateId]).value, H.Dealing, H.Bidding,
                               command.expectedVersion);
            t.Done? && HandleDealt(db, command, env).db.hands == db.hands[t.state.id := H.Snapshot(t.state)]
  {
  }

  lemma AttemptRan(db: Database, actor: Text, command: Command, env: Environment, handled: Handled)
    requires KeyOf(actor, command) in handled.db.ledger && Completed(db.ledger)
    requires NewlyAccepted(Attempt(db, actor, command, env, handled).1)
    ensures handled.Success? && KeyOf(actor, command) !in db.ledger && Fresh(command, env.now)
    ensures command.clientSeq > LastSequence(db, SequenceOf(actor, command))
    ensures Attempt(db, actor, command, env, handled).0.hands == handled.db.hands
  {
    if KeyOf(actor, command) in db.ledger {
      ClaimedIsCompleted(db, KeyOf(actor, command));
    }
  }

  lemma ClaimedIsCompleted(db: Database, key: LedgerKey)
    requires Completed(db.ledger) && key in db.ledger
    ensures db.ledger[key].result.Some?
  {
    assert EntryFine(key, db.ledger[key]);
  }

  lemma DealIsHandled(db: Database, actor: Text, command: Command, env: Environment)
    ensures Handle(db, actor, command, MarkHandDealt, env) == HandleDealt(db, command, env)
  {
  }

  /** What an accepted attempt at a deal says of the store it was made on and of the one it left. */
  lemma AttemptedDeal(db: Database, actor: Text, command: Command, env: Environment)
    requires Keyed(db) && Completed(db.ledger)
    requires NewlyAccepted(Attempt(db, actor, command, env,
                                   HandleDealt(Claim(db, KeyOf(actor, command), command).0, command, env)).1)
    ensures KeyOf(actor, command) !in db.ledger && Fresh(command, env.now)
            && command.clientSeq > LastSequence(db, SequenceOf(actor, command))
    ensures env.liveStart.None? && command.aggregateId in db.hands && H.Restore(db.hands[command.aggregateId]).Ok?
    ensures H.Advance(H.Restore(db.hands[command.aggregateId]).value, H.Dealing, H.Bidding,
                      command.expectedVersion).Done?
    ensures var db' := Attempt(db, actor, command, env,
                               HandleDealt(Claim(db, KeyOf(actor, command), command).0, command, env)).0;
            command.aggregateId in db'.hands && db'.hands[command.aggregateId].body.phase == H.Bidding
  {
    var claimed := Claim(db, KeyOf(actor, command), command).0;
    AttemptRan(db, actor, command, env, HandleDealt(claimed, command, env));
    HandledDeal(claimed, command, env);
  }

  lemma AcceptedDealStarted(l: Live, d: Delivery, runtimeOk: bool)
    requires Consistent(l.db) && d.op.MarkHandDealt? && NewlyAccepted(Reply(l.db, WithStart(l, d, runtimeOk)))
    ensures Started(l, d, runtimeOk)
    ensures var db' := After(l.db, WithStart(l, d, runtimeOk));
            d.command.aggregateId in db'.hands && db'.hands[d.command.aggregateId].body.phase == H.Bidding
  {
    var dealt := WithStart(l, d, runtimeOk);
    var command := Bound(dealt.command, dealt.op, dealt.env);
    LoadableIsKeyed(l.db);
    DealIsHandled(Claim(l.db, KeyFor(d), command).0, d.actor, command, dealt.env);
    AttemptedDeal(l.db, d.actor, command, dealt.env);
  }

  /** When taking back works, a deal changes store and games together or not at all. */
  lemma DealIsAtomic(l: Live, d: Delivery, runtimeOk: bool)
    requires Consistent(l.db) && d.op.MarkHandDealt?
    ensures var l' := Happens(l, d, runtimeOk, true);
            if NewlyAccepted(Reply(l.db, WithStart(l, d, runtimeOk))) then
              && d.command.aggregateId !in l.running && l'.running == l.running + {d.command.aggregateId}
              && d.command.aggregateId in l'.db.hands && l'.db.hands[d.command.aggregateId].body.phase == H.Bidding
            else l'.running == l.running && SameState(l.db, l'.db)
  {
    if NewlyAccepted(Reply(l.db, WithStart(l, d, runtimeOk))) {
      AcceptedDealStarted(l, d, runtimeOk);
    } else {
      StepFollows(l.db, WithStart(l, d, runtimeOk));
    }
  }

  lemma GamesStayDealt(l: Live, l': Live, hand: Text)
    requires OnlyDealtRun(l) && AllStayDealt(l.db, l'.db)
    requires l'.running == l.running
             || (l'.running == l.running + {hand} && hand in l'.db.hands
                 && !BeforeDealing(l'.db.hands[hand].body.phase))
    ensures OnlyDealtRun(l')
  {
  }

  lemma HappeningKeepsAllDealt(l: Live, d: Delivery, runtimeOk: bool, rollbackOk: bool)
    requires Consistent(l.db)
    ensures AllStayDealt(l.db, Happens(l, d, runtimeOk, rollbackOk).db)
  {
    if d.op.MarkHandDealt? {
      StepKeepsAllDealt(l.db, WithStart(l, d, runtimeOk));
    } else {
      StepKeepsAllDealt(l.db, d);
    }
  }

  lemma HappeningKeepsDealt(l: Live, d: Delivery, runtimeOk: bool)
    requires Consistent(l.db) && OnlyDealtRun(l)
    ensures OnlyDealtRun(Happens(l, d, runtimeOk, true))
  {
    HappeningKeepsAllDealt(l, d, runtimeOk, true);
    if d.op.MarkHandDealt? {
      DealIsAtomic(l, d, runtimeOk);
    }
    GamesStayDealt(l, Happens(l, d, runtimeOk, true), d.command.aggregateId);
  }

  datatype Happening = Happening(d: Delivery, runtimeOk: bool)

  function LiveRun(l: Live, hs: seq<Happening>): Live {
    if hs == [] then l
    else Happens(LiveRun(l, hs[..|hs| - 1]), hs[|hs| - 1].d, hs[|hs| - 1].runtimeOk, true)
  }

  lemma {:induction false} LiveRunConsistent(l: Live, hs: seq<Happening>)
    requires Consistent(l.db) && forall i :: 0 <= i < |hs| ==> H.NeverZero(hs[i].d.env.commitOf)
    ensures Consistent(LiveRun(l, hs).db)
  {
    if hs != [] {
      LiveRunConsistent(l, hs[..|hs| - 1]);
      var before, h := LiveRun(l, hs[..|hs| - 1]), hs[|hs| - 1];
      var sent := if h.d.op.MarkHandDealt? then WithStart(before, h.d, h.runtimeOk) else h.d;
      StepKeepsConsistent(before.db, sent.actor, sent.command, sent.op, sent.env);
    }
  }

  /** As long as failed transactions can take their game back, no run of commands from an empty store gives a
      hand a live game before the hand is dealt. */
  lemma {:induction false} NoGameBeforeDealing(hs: seq<Happening>)
    requires forall i :: 0 <= i < |hs| ==> H.NeverZero(hs[i].d.env.commitOf)
    ensures OnlyDealtRun(LiveRun(Live(EMPTY_DATABASE, {}), hs))
  {
    if hs != [] {
      var l := Live(EMPTY_DATABASE, {});
      NoGameBeforeDealing(hs[..|hs| - 1]);
      EmptyIsConsistent();
      LiveRunConsistent(l, hs[..|hs| - 1]);
      HappeningKeepsDealt(LiveRun(l, hs[..|hs| - 1]), hs[|hs| - 1].d, hs[|hs| - 1].runtimeOk);
    }
  }

  /** Exactly when a started deal neither commits nor can be taken back does an undealt hand keep a game. */
  lemma LeakIffRollbackFails(l: Live, d: Delivery, runtimeOk: bool, rollbackOk: bool)
    requires Consistent(l.db) && OnlyDealtRun(l) && d.op.MarkHandDealt?
    ensures OnlyDealtRun(Happens(l, d, runtimeOk, rollbackOk))
            <==> rollbackOk || !Started(l, d, runtimeOk) || NewlyAccepted(Reply(l.db, WithStart(l, d, runtimeOk)))
  {
    HappeningKeepsDealt(l, d, runtimeOk);
    var dealt := WithStart(l, d, runtimeOk);
    if !rollbackOk && Started(l, d, runtimeOk) && !NewlyAccepted(Reply(l.db, dealt)) {
      StepFollows(l.db, dealt);
      var l' := Happens(l, d, runtimeOk, rollbackOk);
      StillDealing(l, d, runtimeOk);
      assert d.command.aggregateId in l'.running;
    }
  }

  lemma StillDealing(l: Live, d: Delivery, runtimeOk: bool)
    requires Started(l, d, runtimeOk)
    ensures l.db.hands[d.command.aggregateId].body.phase == H.Dealing
  {
    HandLoaded(l.db.hands[d.command.aggregateId]);
  }
}
