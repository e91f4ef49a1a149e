/** The guarded expiry and the row that serialises a hand's live actions. */
module ExpiryRace {
  import opened Bytes
  import opened Text
  import opened Domain
  import opened Store
  import opened Handlers
  import opened Service
  import opened Effects
  import opened StoreInvariant
  import opened Ledger
  import opened Reachable
  import opened Supervisor
  import H = HandModel

  /** Commands never commit live actions, add or drop writer rows, or take an epoch back. */
  ghost predicate WritersKept(db: Database, later: Database) {
    && later.live.Keys == db.live.Keys
    && forall hand :: hand in db.live ==>
         later.live[hand].committed == db.live[hand].committed && later.live[hand].epoch >= db.live[hand].epoch
  }

  lemma FencedKeepsWriters(db: Database, tx: Database)
    requires LiveFenced(db, tx)
    ensures WritersKept(db, tx)
  {
    if tx.live != db.live {
      var hand :| HasWriter(db, hand) && tx.live == Fence(db, hand).live;
    }
  }

  lemma AttemptKeepsWriters(db: Database, actor: Text, command: Command, env: Environment, handled: Handled)
    requires KeyOf(actor, command) in handled.db.ledger && WritersKept(db, handled.db)
    ensures WritersKept(db, Attempt(db, actor, command, env, handled).0)
  {
  }

  lemma CommandsKeepWriters(db: Database, d: Delivery)
    ensures WritersKept(db, Reachable.After(db, d))
  {
    var command := Bound(d.command, d.op, d.env);
    var claimed := Claim(db, KeyFor(d), command).0;
    var handled := Handle(claimed, d.actor, command, d.op, d.env);
    FencedKeepsWriters(claimed, handled.db);
    AttemptKeepsWriters(db, d.actor, command, d.env, handled);
  }

  // ------------------------------------------------------------------ the guarded expiry

  lemma WritingKeepsLive(db: Database, stored: H.HandSnapshot, h': H.HandState, handEvents: seq<Event>, op: Operation,
                         env: Environment)
    requires Guarded(op, env) && ReleaseRoom(db, stored, h', handEvents, op, env).Success?
    ensures HasWriter(db, stored.body.id) && db.live[stored.body.id].committed <= op.expectedLiveVersion
    ensures ReleaseRoom(db, stored, h', handEvents, op, env).db.live == Fence(db, stored.body.id).live
  {
  }

  /** A guarded expiry that succeeds has seen no live action above the version it expected, and has fenced the
      writer. */
  lemma GuardedExpirySeesAll(db: Database, command: Command, op: Operation, env: Environment)
    requires Keyed(db) && Guarded(op, env)
    requires HandleTerminate(db, command, op, EndingActionOf(op, command.expectedVersion), env).Success?
    ensures var tx := HandleTerminate(db, command, op, EndingActionOf(op, command.expectedVersion), env).db;
            && HasWriter(db, command.aggregateId) && db.live[command.aggregateId].committed <= op.expectedLiveVersion
            && tx.live == Fence(db, command.aggregateId).live
  {
    var stored := db.hands[command.aggregateId];
    var t := H.Apply(H.Restore(stored).value, env.commitOf, EndingActionOf(op, command.expectedVersion));
    WritingKeepsLive(db, stored, t.state, t.events, op, env);
  }

  /** What a newly accepted reply says about the handler. */
  lemma AttemptAccepts(db: Database, actor: Text, command: Command, env: Environment, handled: Handled)
    requires KeyOf(actor, command) in handled.db.ledger && NewlyAccepted(Attempt(db, actor, command, env, handled).1)
    ensures handled.Success? && Attempt(db, actor, command, env, handled).0.live == handled.db.live
  {
  }

  lemma ExpiryIsTermination(db: Database, actor: Text, command: Command, op: Operation, env: Environment)
    requires op.ExpireHand?
    ensures Handle(db, actor, command, op, env)
            == HandleTerminate(db, command, op, EndingActionOf(op, command.expectedVersion), env)
  {
  }

  lemma DeliveryIsAttempt(db: Database, d: Delivery)
    requires d.op.ExpireHand? && NewlyAccepted(Reply(db, d))
    ensures var command := Bound(d.command, d.op, d.env);
            var claimed := Claim(db, KeyFor(d), command).0;
            Step(db, d.actor, d.command, d.op, d.env)
            == Attempt(db, d.actor, command, d.env,
                       HandleTerminate(claimed, command, d.op, EndingActionOf(d.op, command.expectedVersion), d.env))
  {
    var command := Bound(d.command, d.op, d.env);
    ExpiryIsTermination(Claim(db, KeyFor(d), command).0, d.actor, command, d.op, d.env);
  }

  /** A guarded expiry commits only if no live action above its version has, and afterwards the writer that
      was current is cut off. */
  lemma ExpiryCommitsOnlyUnprogressed(db: Database, d: Delivery)
    requires Consistent(db) && Guarded(d.op, d.env) && NewlyAccepted(Reply(db, d))
    ensures HasWriter(db, d.command.aggregateId)
    ensures Reachable.After(db, d).live == Fence(db, d.command.aggregateId).live
    ensures db.live[d.command.aggregateId].committed <= d.op.expectedLiveVersion
  {
    LoadableIsKeyed(db);
    DeliveryIsAttempt(db, d);
    AttemptedExpiry(db, d.actor, Bound(d.command, d.op, d.env), d.op, d.env);
  }

  lemma AttemptedExpiry(db: Database, actor: Text, command: Command, op: Operation, env: Environment)
    requires Keyed(db) && Guarded(op, env)
    requires var claimed := Claim(db, KeyOf(actor, command), command).0;
             var handled := HandleTerminate(claimed, command, op, EndingActionOf(op, command.expectedVersion), env);
             NewlyAccepted(Attempt(db, actor, command, env, handled).1)
    ensures HasWriter(db, command.aggregateId) && db.live[command.aggregateId].committed <= op.expectedLiveVersion
    ensures var claimed := Claim(db, KeyOf(actor, command), command).0;
            var handled := HandleTerminate(claimed, command, op, EndingActionOf(op, command.expectedVersion), env);
            Attempt(db, actor, command, env, handled).0.live == Fence(db, command.aggregateId).live
  {
    var claimed := Claim(db, KeyOf(actor, command), command).0;
    var handled := HandleTerminate(claimed, command, op, EndingActionOf(op, command.expectedVersion), env);
    if handled.Success? {
      GuardedExpirySeesAll(claimed, command, op, env);
    }
    AttemptedFence(db, claimed, actor, command, env, handled, op.expectedLiveVersion);
  }

  /** From the handler's success to the store it leaves. */
  lemma AttemptedFence(db: Database, claimed: Database, actor: Text, command: Command, env: Environment,
                       handled: Handled, bound: nat)
    requires KeyOf(actor, command) in handled.db.ledger && NewlyAccepted(Attempt(db, actor, command, env, handled).1)
    requires claimed == db.(ledger := claimed.ledger)
    requires handled.Success? ==>
      && HasWriter(claimed, command.aggregateId) && claimed.live[command.aggregateId].committed <= bound
      && handled.db.live == Fence(claimed, command.aggregateId).live
    ensures HasWriter(db, command.aggregateId) && db.live[command.aggregateId].committed <= bound
    ensures Attempt(db, actor, command, env, handled).0.live == Fence(db, command.aggregateId).live
  {
    AttemptAccepts(db, actor, command, env, handled);
  }

  // ------------------------------------------------------------------ losing the race

  lemma AttemptFails(db: Database, actor: Text, command: Command, env: Environment, handled: Handled)
    requires KeyOf(actor, command) in handled.db.ledger && handled.Failure? && handled.error == LiveProgressed
    requires KeyOf(actor, command) !in db.ledger && Fresh(command, env.now)
             && command.clientSeq > LastSequence(db, SequenceOf(actor, command))
    ensures Attempt(db, actor, command, env, handled) == (db, Err(LiveProgressed))
  {
  }

  /** Exactly when a live action above the expected version has committed, or the hand has no writer row, does a
      guarded expiry of a hand that may end fail. */
  lemma RaceIsLostIffProgressed(db: Database, command: Command, op: Operation, env: Environment)
    requires Loadable(db) && Linked(db) && Guarded(op, env) && command.aggregateId in db.hands
    requires var h := H.Restore(db.hands[command.aggregateId]);
             h.Ok? && H.Apply(h.value, env.commitOf, EndingActionOf(op, command.expectedVersion)).Done?
    ensures var r := HandleTerminate(db, command, op, EndingActionOf(op, command.expectedVersion), env);
            var hand := command.aggregateId;
            && (r.Failure? <==> (HasWriter(db, hand) ==> db.live[hand].committed > op.expectedLiveVersion))
            && (r.Failure? && HasWriter(db, hand) ==> r.error == LiveProgressed)
  {
    EndingAlwaysReleases(db, command, op, env);
  }

  /** An expiry that carries no live version ends a hand that may end whatever live actions have committed. */
  lemma ZeroVersionIsUnguarded(db: Database, command: Command, reason: Text, env: Environment)
    requires Loadable(db) && Linked(db) && command.aggregateId in db.hands
    requires var h := H.Restore(db.hands[command.aggregateId]);
             h.Ok? && H.Apply(h.value, env.commitOf, H.ExpireAction(reason, command.expectedVersion)).Done?
    ensures HandleTerminate(db, command, ExpireHand(reason, 0), H.ExpireAction(reason, command.expectedVersion),
                            env).Success?
  {
    EndingAlwaysReleases(db, command, ExpireHand(reason, 0), env);
  }

  /** The service gets as far as the handler with this command. */
  predicate Proceeds(db: Database, d: Delivery) {
    var command := Bound(d.command, d.op, d.env);
    && IdentityValid(d.actor, command, d.op) && !d.env.storeFails && KeyFor(d) !in db.ledger
    && Fresh(command, d.env.now) && command.clientSeq > LastSequence(db, SequenceOf(d.actor, command))
  }

  lemma ExpiryRepliesProgressed(db: Database, d: Delivery)
    requires Guarded(d.op, d.env) && Proceeds(db, d)
    requires var command := Bound(d.command, d.op, d.env);
             var r := HandleTerminate(Claim(db, KeyFor(d), command).0, command, d.op,
                                      EndingActionOf(d.op, command.expectedVersion), d.env);
             r.Failure? && r.error == LiveProgressed
    ensures Step(db, d.actor, d.command, d.op, d.env) == (db, Err(LiveProgressed))
  {
    var command := Bound(d.command, d.op, d.env);
    var claimed := Claim(db, KeyFor(d), command).0;
    ExpiryIsTermination(claimed, d.actor, command, d.op, d.env);
    AttemptFails(db, d.actor, command, d.env,
                 HandleTerminate(claimed, command, d.op, EndingActionOf(d.op, command.expectedVersion), d.env));
  }

  /** A pending expiry that is overtaken by a live action leaves the store as it was - the hand goes on, its
      room stays active - and the supervisor, told so, drops the pending termination and keeps the timer. */
  lemma LostRaceKeepsHand(db: Database, d: Delivery, timers: Timers)
    requires Consistent(db) && Guarded(d.op, d.env) && Proceeds(db, d)
    requires var hand := d.command.aggregateId;
             && hand in db.hands && hand in timers && timers[hand].pending.Some?
             && timers[hand].pending.value.command == d.command
             && timers[hand].pending.value.liveVersion == d.op.expectedLiveVersion
             && HasWriter(db, hand) && db.live[hand].committed > d.op.expectedLiveVersion
             && var h := H.Restore(db.hands[hand]);
               h.Ok? && H.Apply(h.value, d.env.commitOf, EndingActionOf(d.op, d.command.expectedVersion)).Done?
    ensures Reply(db, d) == Err(LiveProgressed) && Reachable.After(db, d) == db
    ensures var hand := d.command.aggregateId;
            TimerOf(Retired(timers, hand, d.command.commandId), hand) == timers[hand].(pending := None)
  {
    var command := Bound(d.command, d.op, d.env);
    var claimed := Claim(db, KeyFor(d), command).0;
    SameRows(db, claimed);
    EndingAlwaysReleases(claimed, command, d.op, d.env);
    ExpiryRepliesProgressed(db, d);
  }

  /** The supervisor's expiries are never of that kind: where durability is enforced, whatever the interleaving of its
      sections, the expiry it has pending is guarded. */
  lemma {:induction false} PendingExpiriesAreGuarded(ss: seq<Section>, config: Config, hand: Text, env: Environment)
    requires AllSwept(ss, config) && env.durabilityEnforced
    requires hand in SweepRun(ss, config).timers && SweepRun(ss, config).timers[hand].pending.Some?
    requires SweepRun(ss, config).timers[hand].pending.value.kind == ExpireTermination
    ensures var pending := SweepRun(ss, config).timers[hand].pending.value;
            Guarded(ExpireHand(pending.reason, pending.liveVersion), env)
  {
    ExpiriesAlwaysCarryVersion(ss, config);
  }
}
