/** Which commands the service lets in: their times, their sequences and their identifiers; and what a rejection
    says. */
module Admission {
  import opened Text
  import opened Domain
  import opened Store
  import opened Handlers
  import opened Service
  import opened Ledger
  import opened Reachable
  import opened ExpiryRace
  import opened Verdict
  import H = HandModel

  const SECOND := 1_000_000_000

  /** The clock is not more than half a minute before the command was issued, and not past its expiry, which is at
      most two minutes after it was issued. */
  predicate Timely(c: Command, now: int) {
    c.issuedAt - 30 * SECOND <= now <= c.expiresAt && c.issuedAt < c.expiresAt <= c.issuedAt + 120 * SECOND
  }

  /** The times were given, in whole milliseconds. */
  predicate Stamped(c: Command) {
    && c.issuedAt % 1_000_000 == 0 && c.expiresAt % 1_000_000 == 0
    && c.issuedAt != ZERO_TIME && c.expiresAt != ZERO_TIME
  }

  /** The command speaks the service's protocol, for a named actor and a named aggregate of its own kind. */
  predicate WellSpoken(actor: Text, c: Command, op: Operation) {
    && c.protocolOk && c.name == NameOf(op) && (c.aggregate == AggregateRoom <==> ConcernsRoom(op))
    && !Blank(actor) && |actor| <= 128 && !Blank(c.commandId) && |c.commandId| <= 128
    && !Blank(c.aggregateId) && |c.aggregateId| <= 128
    && c.clientSeq > 0 && (c.expectedVersion == 0 <==> op.CreateRoom?)
    && !(op.StartRoomHand? && op.mode == H.UnknownMode)
  }

  /** Nothing is known of the command's identifier, and nothing as late in its sequence. */
  predicate Unused(db: Database, d: Delivery) {
    && LedgerKey(d.actor, d.command.commandId) !in db.ledger
    && LastSequence(db, SequenceKey(d.command.aggregate, d.command.aggregateId, d.actor)) < d.command.clientSeq
  }

  /** A command is received exactly when it is well formed, unused and in time, and the store works. */
  lemma ReceivedIff(db: Database, d: Delivery)
    ensures Received(db, d)
            <==> && WellSpoken(d.actor, d.command, d.op) && Unused(db, d)
                 && Stamped(d.command) && Timely(d.command, d.env.now) && !d.env.storeFails && d.env.eventIds
  {
  }

  // ------------------------------------------------------------------ times

  /** In every reachable store a newly accepted command is in time by the clock it was checked against. */
  lemma {:induction false} AcceptedInTime(ds: seq<Delivery>, d: Delivery)
    requires Hashing(ds) && NewlyAccepted(Reply(Reachable.Run(EMPTY_DATABASE, ds), d))
    ensures Timely(d.command, d.env.now) && Stamped(d.command) && WellSpoken(d.actor, d.command, d.op)
  {
    ReachableAcceptedIff(ds, d);
    ReceivedIff(Reachable.Run(EMPTY_DATABASE, ds), d);
  }

  /** A recorded rejection is for good: nothing under its identifier is ever accepted, and nothing changes. */
  lemma RejectedStays(db: Database, d: Delivery)
    requires Consistent(db) && KeyFor(d) in db.ledger && !AcceptedIn(db.ledger, KeyFor(d))
    ensures After(db, d) == db && (Reply(db, d).Ok? ==> !Reply(db, d).value.accepted)
  {
    assert EntryFine(KeyFor(d), db.ledger[KeyFor(d)]);
    ReplayHasNoEffect(db, d);
  }

  lemma LateIsRejected(db: Database, d: Delivery)
    requires WellSpoken(d.actor, d.command, d.op) && !d.env.storeFails && KeyFor(d) !in db.ledger
    requires d.env.now > d.command.expiresAt
    ensures Reply(db, d) == Ok(Rejected(Bound(d.command, d.op, d.env), CodeInvalidCommand, 0))
    ensures SameState(db, After(db, d)) && After(db, d).sequences == db.sequences && KeyFor(d) in After(db, d).ledger
            && !AcceptedIn(After(db, d).ledger, KeyFor(d))
  {
  }

  /** A command that first arrives after its expiry is rejected as invalid, spends no sequence and changes no room,
      hand or event; and whatever happens afterwards, nothing under its identifier is accepted any more. */
  lemma {:induction false} LateIsRejectedForGood(ds: seq<Delivery>, d: Delivery, between: seq<Delivery>,
                                                 again: Delivery)
    requires Hashing(ds) && Hashing(between) && H.NeverZero(d.env.commitOf)
    requires WellSpoken(d.actor, d.command, d.op) && !d.env.storeFails && d.env.now > d.command.expiresAt
    requires KeyFor(d) !in Reachable.Run(EMPTY_DATABASE, ds).ledger && KeyFor(again) == KeyFor(d)
    ensures var db := Reachable.Run(EMPTY_DATABASE, ds);
            && Reply(db, d) == Ok(Rejected(Bound(d.command, d.op, d.env), CodeInvalidCommand, 0))
            && SameState(db, After(db, d)) && After(db, d).sequences == db.sequences
    ensures var later := Reachable.Run(After(Reachable.Run(EMPTY_DATABASE, ds), d), between);
            After(later, again) == later && (Reply(later, again).Ok? ==> !Reply(later, again).value.accepted)
  {
    var db := Reachable.Run(EMPTY_DATABASE, ds);
    EveryReachableStoreIsConsistent(ds);
    LateIsRejected(db, d);
    StepKeepsConsistent(db, d.actor, d.command, d.op, d.env);
    RunsFollow(After(db, d), between);
    RunsStayConsistent(After(db, d), between);
    RejectedStays(Reachable.Run(After(db, d), between), again);
  }

  // ------------------------------------------------------------------ sequences

  /** The command gets as far as its handler. */
  predicate Reaches(db: Database, d: Delivery) {
    Proceeds(db, d) && !(d.op.StartRoomHand? && d.op.mode == H.UnknownMode)
  }

  lemma AttemptSpends(db: Database, actor: Text, command: Command, env: Environment, handled: Handled)
    requires KeyOf(actor, command) in handled.db.ledger && handled.db.sequences == db.sequences
    requires Completed(db.ledger)
    ensures var (db', r) := Attempt(db, actor, command, env, handled);
            if KeyOf(actor, command) !in db.ledger && Fresh(command, env.now)
               && command.clientSeq > LastSequence(db, SequenceOf(actor, command)) && r.Ok?
            then db'.sequences == db.sequences[SequenceOf(actor, command) := command.clientSeq]
            else db'.sequences == db.sequences
  {
    if KeyOf(actor, command) in db.ledger {
      assert EntryFine(KeyOf(actor, command), db.ledger[KeyOf(actor, command)]);
    }
  }

  /** Whatever reaches its handler and completes, accepted or rejected, spends its sequence; nothing else does. */
  lemma CompletionSpendsSequence(db: Database, d: Delivery)
    requires Consistent(db)
    ensures var key := SequenceKey(d.command.aggregate, d.command.aggregateId, d.actor);
            After(db, d).sequences == if Reaches(db, d) && Reply(db, d).Ok?
                                      then db.sequences[key := d.command.clientSeq] else db.sequences
  {
    var command := Bound(d.command, d.op, d.env);
    AttemptSpends(db, d.actor, command, d.env, Handle(Claim(db, KeyFor(d), command).0, d.actor, command, d.op, d.env));
  }

  lemma SpentIsRefused(db: Database, d: Delivery)
    requires Consistent(db)
    requires d.command.clientSeq <= LastSequence(db, SequenceKey(d.command.aggregate, d.command.aggregateId, d.actor))
    ensures !NewlyAccepted(Reply(db, d))
    ensures WellSpoken(d.actor, d.command, d.op) && !d.env.storeFails && KeyFor(d) !in db.ledger
            && Stamped(d.command) && Timely(d.command, d.env.now)
            ==> Reply(db, d) == Ok(Rejected(Bound(d.command, d.op, d.env), CodeSequenceConflict, 0))
  {
    AcceptedIff(db, d);
  }

  /** Once a command has reached its handler and completed, no later new command of its actor on its aggregate with
      a sequence up to its own is accepted: in time, such a command is told that its sequence is in conflict. */
  lemma {:induction false} SpentSequenceIsGone(ds: seq<Delivery>, d: Delivery, between: seq<Delivery>, next: Delivery)
    requires Hashing(ds) && Hashing(between) && H.NeverZero(d.env.commitOf)
    requires Reaches(Reachable.Run(EMPTY_DATABASE, ds), d) && Reply(Reachable.Run(EMPTY_DATABASE, ds), d).Ok?
    requires SequenceOf(next.actor, next.command) == SequenceOf(d.actor, d.command)
    requires next.command.clientSeq <= d.command.clientSeq
    ensures var later := Reachable.Run(After(Reachable.Run(EMPTY_DATABASE, ds), d), between);
            && !NewlyAccepted(Reply(later, next))
            && (WellSpoken(next.actor, next.command, next.op) && !next.env.storeFails && KeyFor(next) !in later.ledger
                && Stamped(next.command) && Timely(next.command, next.env.now)
                ==> Reply(later, next) == Ok(Rejected(Bound(next.command, next.op, next.env), CodeSequenceConflict, 0)))
  {
    var db := Reachable.Run(EMPTY_DATABASE, ds);
    EveryReachableStoreIsConsistent(ds);
    CompletionSpendsSequence(db, d);
    StepKeepsConsistent(db, d.actor, d.command, d.op, d.env);
    RunsFollow(After(db, d), between);
    RunsStayConsistent(After(db, d), between);
    assert LastOf(After(db, d).sequences, SequenceOf(d.actor, d.command)) == d.command.clientSeq;
    SpentIsRefused(Reachable.Run(After(db, d), between), next);
  }

  // ------------------------------------------------------------------ identifiers

  /** The two commands ask for different things, or were given different times. */
  predicate Differs(c: Command, other: Command) {
    || other.name != c.name || other.aggregate != c.aggregate || other.aggregateId != c.aggregateId
    || other.clientSeq != c.clientSeq || other.expectedVersion != c.expectedVersion
    || other.payloadDigest != c.payloadDigest || other.protocolOk != c.protocolOk || other.commandId != c.commandId
    || (!other.serverTimes && (other.issuedAt != c.issuedAt || other.expiresAt != c.expiresAt))
  }

  /** A used identifier with another command behind it is a conflict, with the version the first one left. */
  lemma IdentifierIsTaken(db: Database, d: Delivery)
    requires Consistent(db) && KeyFor(d) in db.ledger && WellSpoken(d.actor, d.command, d.op) && !d.env.storeFails
    ensures var stored, command := db.ledger[KeyFor(d)], Bound(d.command, d.op, d.env);
            && stored.result.Some? && After(db, d) == db
            && Reply(db, d) == Ok(if Differs(stored.command, command)
                                  then Rejected(command, CodeConflict, stored.result.value.aggregateVersion)
                                  else stored.result.value.(duplicate := true))
  {
    assert EntryFine(KeyFor(d), db.ledger[KeyFor(d)]);
    var stored, command := db.ledger[KeyFor(d)], Bound(d.command, d.op, d.env);
    SameUnlessDiffers(stored.command, command);
  }

  lemma SameUnlessDiffers(c: Command, other: Command)
    ensures SameCommand(c, other) <==> !Differs(c, other)
  {
    var l, r := c.(issuedAt := 0, expiresAt := 0, serverTimes := false),
        other.(issuedAt := 0, expiresAt := 0, serverTimes := false);
  }
}
