/** The worker that drives fair hands: abort when the round is public before everyone has contributed, lock the
    beacon, deal. */
module AutoDealer {
  import opened Bytes
  import opened Text
  import opened Domain
  import opened Store
  import opened Handlers
  import opened Service
  import opened StoreInvariant
  import opened Ledger
  import opened Reachable
  import opened Quicknet
  import H = HandModel

  /** The lifetime of the dealer's commands, the account it acts as and the reason it gives for an abort. */
  datatype Dealer = Dealer(ttl: int, actor: Text, abortReason: Text)

  function SystemDealer(ttl: int): Dealer {
    Dealer(ttl, Ascii("system:doudizhu-lifecycle"), Ascii("public_beacon_round_expired"))
  }

  /** The actor and the reason pass validation. */
  predicate WellNamed(dealer: Dealer) {
    !Blank(dealer.actor) && |dealer.actor| <= 128 && !Blank(dealer.abortReason) && |Trim(dealer.abortReason)| <= 256
  }

  datatype Fetched = NotPublished | Fetched | Unreadable

  /** What the dealer's collaborators answer while it treats one hand. */
  datatype Answers = Answers(now: int, fetched: Fetched, commandId: Option<Text>, env: Environment, tracked: bool)

  datatype Choice = Skip | Fail | Issue(op: Operation)

  datatype Treated = Skipped | Progressed | Stopped

  function Choose(t: H.HandSnapshot, a: Answers, dealer: Dealer): Choice {
    match t.body.phase
    case Committing => ChooseInFairness(t.body.plan, a, dealer)
    case Revealing => ChooseInFairness(t.body.plan, a, dealer)
    case WaitingBeacon =>
      if t.body.plan.provider != QUICKNET || a.fetched == NotPublished then Skip
      else if a.fetched == Unreadable then Fail else Issue(LockHandBeacon)
    case Dealing => if t.body.plan.provider != QUICKNET then Skip else Issue(MarkHandDealt)
    case _ => Skip
  }

  function ChooseInFairness(plan: H.BeaconPlan, a: Answers, dealer: Dealer): Choice {
    if plan.provider != QUICKNET then Skip
    else
      match Publication(plan)
      case Err(_) => Fail
      case Ok(published) => if a.now < published then Skip else Issue(AbortHand(dealer.abortReason))
  }

  /** issueCommand: the next sequence, the version just read. */
  function CommandFor(db: Database, t: H.HandSnapshot, op: Operation, id: Text, now: int, dealer: Dealer): Command {
    var issued := now - now % MILLISECOND;
    Command(true, NameOf(op), id, AggregateHand, t.body.id,
            LastSequence(db, SequenceKey(AggregateHand, t.body.id, dealer.actor)) + 1, t.body.version,
            issued, issued + dealer.ttl, ZeroBlock(), false)
  }

  /** The service as the dealer sees it. */
  type Writer = (Database, Text, Command, Operation, Environment) -> (Database, Result<CommandResult>)

  function Treat(write: Writer, db: Database, hand: Text, a: Answers, dealer: Dealer): (Database, Treated) {
    if hand !in db.hands then (db, Stopped)
    else
      match Choose(db.hands[hand], a, dealer)
      case Skip => (db, Skipped)
      case Fail => (db, Stopped)
      case Issue(op) =>
        if a.commandId.None? then (db, Stopped)
        else
          var (db', r) := write(db, dealer.actor, CommandFor(db, db.hands[hand], op, a.commandId.value, a.now, dealer),
                                op, a.env);
          if !(r.Ok? && r.value.accepted) then (db', Stopped)
          else if op.MarkHandDealt? && (db.hands[hand].body.seats[0].account == [] || !a.tracked) then (db', Stopped)
          else (db', Progressed)
  }

  /** One page of hands: the store, how many progressed, and whether the page was done to its end. */
  function Process(write: Writer, db: Database, hands: seq<Text>, answers: seq<Answers>, dealer: Dealer): (Database,
      nat, bool)
    requires |answers| == |hands|
    decreases |hands|
  {
    if hands == [] then (db, 0, true)
    else
      var (db', treated) := Treat(write, db, hands[0], answers[0], dealer);
      if treated == Stopped then (db', 0, false)
      else
        var (last, progressed, done) := Process(write, db', hands[1..], answers[1..], dealer);
        (last, progressed + (if treated == Progressed then 1 else 0), done)
  }

  /** The writer with its store. The durable service is the writer whose `write` is Step. */
  class DealWriter {
    const write: Writer
    var db: Database

    constructor (write: Writer, db: Database)
      ensures this.write == write && this.db == db
    {
      this.write, this.db := write, db;
    }

    method Execute(actor: Text, command: Command, op: Operation, env: Environment) returns (r: Result<CommandResult>)
      modifies this
      ensures (db, r) == write(old(db), actor, command, op, env)
    {
      var (after, reply) := write(db, actor, command, op, env);
      db := after;
      return reply;
    }
  }

  /** The loop of ProcessOnce over one page of hands. */
  method ProcessOnce(service: DealWriter, hands: seq<Text>, answers: seq<Answers>, dealer: Dealer)
    returns (progressed: nat, done: bool)
    requires |answers| == |hands|
    modifies service
    ensures (service.db, progressed, done) == Process(service.write, old(service.db), hands, answers, dealer)
  {
    progressed := 0;
    for i := 0 to |hands|
      invariant Process(service.write, old(service.db), hands, answers, dealer)
             == var (last, more, done) := Process(service.write, service.db, hands[i..], answers[i..], dealer);
                 (last, progressed + more, done)
    {
      assert hands[i..][0] == hands[i] && hands[i..][1..] == hands[i + 1..];
      assert answers[i..][0] == answers[i] && answers[i..][1..] == answers[i + 1..];
      var treated := TreatHand(service, hands[i], answers[i], dealer);
      if treated == Stopped {
        return progressed, false;
      }
      if treated == Progressed {
        progressed := progressed + 1;
      }
    }
    return progressed, true;
  }

  method TreatHand(service: DealWriter, hand: Text, a: Answers, dealer: Dealer) returns (treated: Treated)
    modifies service
    ensures (service.db, treated) == Treat(service.write, old(service.db), hand, a, dealer)
  {
    if hand !in service.db.hands {
      return Stopped;
    }
    var snapshot := service.db.hands[hand];
    var choice := Choose(snapshot, a, dealer);
    if choice.Skip? {
      return Skipped;
    }
    if choice.Fail? || a.commandId.None? {
      return Stopped;
    }
    var command := CommandFor(service.db, snapshot, choice.op, a.commandId.value, a.now, dealer);
    var result := service.Execute(dealer.actor, command, choice.op, a.env);
    if !(result.Ok? && result.value.accepted) {
      return Stopped;
    }
    if choice.op.MarkHandDealt? && (snapshot.body.seats[0].account == [] || !a.tracked) {
      return Stopped;
    }
    return Progressed;
  }

  // ------------------------------------------------------------------ what the dealer can and cannot do

  /** A page of one hand is the treatment of that hand. */
  lemma OneHandIsTreated(write: Writer, db: Database, hand: Text, a: Answers, dealer: Dealer)
    ensures var (db', treated) := Treat(write, db, hand, a, dealer);
            Process(write, db, [hand], [a], dealer)
            == (db', if treated == Progressed then 1 else 0, treated != Stopped)
  {
    var (db', treated) := Treat(write, db, hand, a, dealer);
    assert [hand][1..] == [] && [a][1..] == [];
    assert Process(write, db', [], [], dealer) == (db', 0, true);
  }

  /** A page is its first part, and behind that, if it was done to its end, the rest; progress adds up. */
  lemma {:induction false} PagesConcatenate(write: Writer, db: Database, hands: seq<Text>, answers: seq<Answers>,
                                            behind: seq<Text>, more: seq<Answers>, dealer: Dealer)
    requires |answers| == |hands| && |more| == |behind|
    ensures var (before, progressed, done) := Process(write, db, hands, answers, dealer);
            Process(write, db, hands + behind, answers + more, dealer)
            == if !done then (before, progressed, false)
               else var (last, count, ended) := Process(write, before, behind, more, dealer);
                    (last, progressed + count, ended)
    decreases |hands|
  {
    if hands == [] {
      assert hands + behind == behind && answers + more == more;
    } else {
      var (db', treated) := Treat(write, db, hands[0], answers[0], dealer);
      assert (hands + behind)[1..] == hands[1..] + behind && (answers + more)[1..] == answers[1..] + more;
      if treated != Stopped {
        PagesConcatenate(write, db', hands[1..], answers[1..], behind, more, dealer);
      }
    }
  }

  /** Whatever the writer keeps, a page keeps. */
  lemma {:induction false} ProcessingKeeps(write: Writer, kept: Database -> bool, db: Database, hands: seq<Text>,
                                           answers: seq<Answers>, dealer: Dealer)
    requires |answers| == |hands| && kept(db)
    requires forall d, command, op, i ::
             0 <= i < |answers| && kept(d) ==> kept(write(d, dealer.actor, command, op, answers[i].env).0)
    ensures kept(Process(write, db, hands, answers, dealer).0)
    decreases |hands|
  {
    if hands != [] {
      var (db', treated) := Treat(write, db, hands[0], answers[0], dealer);
      assert kept(db');
      if treated != Stopped {
        assert forall i :: 0 <= i < |answers[1..]| ==> answers[1..][i] == answers[i + 1];
        ProcessingKeeps(write, kept, db', hands[1..], answers[1..], dealer);
      }
    }
  }

  /** A page keeps the store consistent. */
  lemma {:induction false} ProcessingKeepsConsistent(db: Database, hands: seq<Text>, answers: seq<Answers>,
                                                     dealer: Dealer)
    requires |answers| == |hands| && Consistent(db)
    requires forall i :: 0 <= i < |answers| ==> H.NeverZero(answers[i].env.commitOf)
    ensures Consistent(Process(Step, db, hands, answers, dealer).0)
  {
    var kept: Database -> bool := d => Consistent(d);
    forall d, command, op, i | 0 <= i < |answers| && kept(d)
      ensures kept(Step(d, dealer.actor, command, op, answers[i].env).0) {
      StepKeepsConsistent(d, dealer.actor, command, op, answers[i].env);
    }
    ProcessingKeeps(Step, kept, db, hands, answers, dealer);
  }

  /** A hand that still collects contributions is touched only at or after its round's publication, when no
      contribution is allowed any more. */
  lemma NeverAbortsEarly(write: Writer, db: Database, hand: Text, a: Answers, dealer: Dealer)
    requires hand in db.hands && HandLemmas.InFairness(db.hands[hand].body.phase)
    requires Treat(write, db, hand, a, dealer).0 != db || Treat(write, db, hand, a, dealer).1 == Progressed
    ensures DealerMayAbort(db.hands[hand].body.plan, a.now) && CheckDeadline(db.hands[hand].body.plan, a.now).Some?
  {
    ExactlyOneSide(db.hands[hand].body.plan, a.now);
  }

  /** Among the hands that still collect contributions exactly those with a quicknet round that is not canonical
      make the choice fail; that stops the page, with nothing written and the hands behind it not reached. */
  lemma {:induction false} OnlyStrangeRoundsStopThePage(write: Writer, db: Database, hand: Text, a: Answers,
                                                        dealer: Dealer, behind: seq<Text>, more: seq<Answers>)
    requires |behind| == |more| && hand in db.hands && HandLemmas.InFairness(db.hands[hand].body.phase)
    ensures var plan := db.hands[hand].body.plan;
            && (Choose(db.hands[hand], a, dealer).Fail? <==> plan.provider == QUICKNET && !CanonicalRound(plan.round))
            && (Choose(db.hands[hand], a, dealer).Fail?
                ==> Process(write, db, [hand] + behind, [a] + more, dealer) == (db, 0, false))
  {
    PublicationDefined(db.hands[hand].body.plan);
  }

  // ------------------------------------------------------------------ the abort goes through

  /** The names the system's dealer uses pass validation. */
  lemma SystemDealerIsWellNamed(ttl: int)
    ensures WellNamed(SystemDealer(ttl))
  {
    var d := SystemDealer(ttl);
    assert d.actor[0] == 115 && d.actor[|d.actor| - 1] == 101;
    assert d.abortReason[0] == 112 && d.abortReason[|d.abortReason| - 1] == 100;
  }

  predicate Favourable(db: Database, hand: Text, a: Answers, dealer: Dealer) {
    WellNamed(dealer) && Undisturbed(db, hand, a, dealer)
  }

  /** The environment lets a new command through: its identifier is new, the clocks agree, the store works. */
  predicate Undisturbed(db: Database, hand: Text, a: Answers, dealer: Dealer) {
    && a.commandId.Some? && !Blank(a.commandId.value) && |a.commandId.value| <= 128
    && |hand| <= 128
    && LedgerKey(dealer.actor, a.commandId.value) !in db.ledger
    && 0 < dealer.ttl <= MAX_COMMAND_TTL && dealer.ttl % MILLISECOND == 0 && a.now > 0
    && a.now <= a.env.now <= a.now - a.now % MILLISECOND + dealer.ttl
    && !a.env.storeFails && a.env.eventIds
  }

  /** The command passes every check in front of the handler. */
  lemma CommandPasses(db: Database, t: H.HandSnapshot, op: Operation, a: Answers, dealer: Dealer, digest: Block)
    requires Favourable(db, t.body.id, a, dealer) && !Blank(t.body.id) && t.body.version > 0 && !ConcernsRoom(op)
    ensures var command := CommandFor(db, t, op, a.commandId.value, a.now, dealer).(payloadDigest := digest);
            && IdentityValid(dealer.actor, command, op) && Fresh(command, a.env.now)
            && command.clientSeq > LastSequence(db, SequenceOf(dealer.actor, command))
  {
    FreshTimes(a.now, dealer.ttl);
  }

  lemma FreshTimes(now: int, ttl: int)
    requires now > 0 && ttl % MILLISECOND == 0
    ensures (now - now % MILLISECOND) % MILLISECOND == 0 && (now - now % MILLISECOND + ttl) % MILLISECOND == 0
    ensures now - now % MILLISECOND >= 0
  {
  }

  lemma AttemptOfSuccess(db: Database, actor: Text, command: Command, env: Environment, handled: Handled)
    requires KeyOf(actor, command) in handled.db.ledger && KeyOf(actor, command) !in db.ledger
    requires Fresh(command, env.now) && command.clientSeq > LastSequence(db, SequenceOf(actor, command))
    requires handled.Success? && env.eventIds
    ensures var (db', r) := Attempt(db, actor, command, env, handled);
            NewlyAccepted(r) && db'.rooms == handled.db.rooms && db'.hands == handled.db.hands
  {
  }

  lemma AbortIsTermination(db: Database, actor: Text, command: Command, env: Environment, reason: Text)
    ensures Handle(db, actor, command, AbortHand(reason), env)
         == HandleTerminate(db, command, AbortHand(reason), H.AbortAction(reason, command.expectedVersion), env)
  {
  }

  lemma AbortIsAllowed(h: H.HandState, commitOf: H.CommitFunction, reason: Text)
    requires !H.Terminal(h.phase) && !Blank(reason) && |Trim(reason)| <= 256
    ensures H.Apply(h, commitOf, H.AbortAction(reason, h.version)).Done?
  {
  }

  lemma HandCanAbort(db: Database, t: H.HandSnapshot, commitOf: H.CommitFunction, reason: Text)
    requires Loadable(db) && t.body.id in db.hands && db.hands[t.body.id] == t && !H.Terminal(t.body.phase)
    requires !Blank(reason) && |Trim(reason)| <= 256
    ensures H.Restore(t).Ok? && H.Apply(H.Restore(t).value, commitOf, H.AbortAction(reason, t.body.version)).Done?
    ensures !Blank(t.body.id) && t.body.version > 0
  {
    assert HandRowFine(t.body.id, t);
    HandLoaded(t);
    AbortIsAllowed(H.Restore(t).value, commitOf, reason);
  }

  /** The store after the abort: the hand is over and its room free. */
  predicate Released(db: Database, t: H.HandSnapshot) {
    !LiveIn(db, t.body.roomId, t.body.id) && !ActiveOn(db, t.body.roomId, t.body.id)
  }

  lemma AbortReleases(db: Database, claimed: Database, t: H.HandSnapshot, command: Command, env: Environment,
                      reason: Text)
    requires Loadable(db) && Linked(db) && claimed == db.(ledger := claimed.ledger)
    requires t.body.id in db.hands && db.hands[t.body.id] == t && command.aggregateId == t.body.id
    requires var h := H.Restore(t);
             h.Ok? && H.Apply(h.value, env.commitOf, H.AbortAction(reason, command.expectedVersion)).Done?
    ensures var r := HandleTerminate(claimed, command, AbortHand(reason),
                                     H.AbortAction(reason, command.expectedVersion), env);
            r.Success? && Released(r.db, t)
  {
    SameRows(db, claimed);
    EndingAlwaysReleases(claimed, command, AbortHand(reason), env);
  }

  /** From the checked command to the reply. */
  lemma AbortIsAccepted(db: Database, t: H.HandSnapshot, actor: Text, command: Command, env: Environment, reason: Text)
    requires Loadable(db) && Linked(db) && t.body.id in db.hands && db.hands[t.body.id] == t
             && command.aggregateId == t.body.id
    requires KeyOf(actor, command) !in db.ledger && Fresh(command, env.now) && env.eventIds
    requires command.clientSeq > LastSequence(db, SequenceOf(actor, command))
    requires var h := H.Restore(t);
             h.Ok? && H.Apply(h.value, env.commitOf, H.AbortAction(reason, command.expectedVersion)).Done?
    ensures var (db', r) := Attempt(db, actor, command, env,
                                    Handle(Claim(db, KeyOf(actor, command), command).0, actor, command,
                                           AbortHand(reason), env));
            NewlyAccepted(r) && Released(db', t)
  {
    var claimed := ClaimedBy(db, actor, command);
    AbortReleases(db, claimed, t, command, env, reason);
    AbortIsTermination(claimed, actor, command, env, reason);
    AttemptOfSuccess(db, actor, command, env, Handle(claimed, actor, command, AbortHand(reason), env));
  }

  /** In a favourable environment the service accepts the dealer's abort of any live hand, and the hand's room
      is free afterwards. */
  lemma AbortGoesThrough(db: Database, t: H.HandSnapshot, a: Answers, dealer: Dealer)
    requires Loadable(db) && Linked(db) && t.body.id in db.hands && db.hands[t.body.id] == t
             && !H.Terminal(t.body.phase)
    requires Favourable(db, t.body.id, a, dealer)
    ensures var op := AbortHand(dealer.abortReason);
            var (db', r) := Step(db, dealer.actor, CommandFor(db, t, op, a.commandId.value, a.now, dealer), op, a.env);
            NewlyAccepted(r) && Released(db', t)
  {
    var op := AbortHand(dealer.abortReason);
    var received := CommandFor(db, t, op, a.commandId.value, a.now, dealer);
    HandCanAbort(db, t, a.env.commitOf, dealer.abortReason);
    CommandPasses(db, t, op, a, dealer, Bound(received, op, a.env).payloadDigest);
    AbortIsStepped(db, t, dealer.actor, received, a.env, dealer.abortReason);
  }

  /** The deployed dealer's abort of any live hand goes through in every reachable store, whenever nothing disturbs
      the command on its way. */
  lemma {:induction false} SystemAbortGoesThrough(ds: seq<Delivery>, hand: Text, a: Answers, ttl: int)
    requires Hashing(ds) && hand in Reachable.Run(EMPTY_DATABASE, ds).hands
    requires !H.Terminal(Reachable.Run(EMPTY_DATABASE, ds).hands[hand].body.phase)
    requires Undisturbed(Reachable.Run(EMPTY_DATABASE, ds), hand, a, SystemDealer(ttl))
    ensures var db, dealer := Reachable.Run(EMPTY_DATABASE, ds), SystemDealer(ttl);
            var t, op := db.hands[hand], AbortHand(dealer.abortReason);
            var (db', r) := Step(db, dealer.actor, CommandFor(db, t, op, a.commandId.value, a.now, dealer), op, a.env);
            NewlyAccepted(r) && Released(db', t)
  {
    EveryReachableStoreIsConsistent(ds);
    LoadableIsKeyed(Reachable.Run(EMPTY_DATABASE, ds));
    SystemDealerIsWellNamed(ttl);
    AbortGoesThrough(Reachable.Run(EMPTY_DATABASE, ds), Reachable.Run(EMPTY_DATABASE, ds).hands[hand], a,
                     SystemDealer(ttl));
  }

  lemma AbortIsStepped(db: Database, t: H.HandSnapshot, actor: Text, received: Command, env: Environment, reason: Text)
    requires Loadable(db) && Linked(db) && t.body.id in db.hands && db.hands[t.body.id] == t
             && received.aggregateId == t.body.id
    requires var command := Bound(received, AbortHand(reason), env);
             && IdentityValid(actor, command, AbortHand(reason)) && Fresh(command, env.now)
             && KeyOf(actor, command) !in db.ledger && command.clientSeq > LastSequence(db, SequenceOf(actor, command))
    requires env.eventIds && !env.storeFails
    requires var h := H.Restore(t);
             h.Ok? && H.Apply(h.value, env.commitOf, H.AbortAction(reason, received.expectedVersion)).Done?
    ensures var (db', r) := Step(db, actor, received, AbortHand(reason), env); NewlyAccepted(r) && Released(db', t)
  {
    AbortIsAccepted(db, t, actor, Bound(received, AbortHand(reason), env), env, reason);
  }

  /** The dealer chooses to abort a hand that still collects contributions exactly when its round is public. */
  lemma PublishedRoundIsAborted(t: H.HandSnapshot, a: Answers, dealer: Dealer)
    requires HandLemmas.InFairness(t.body.phase)
    ensures DealerMayAbort(t.body.plan, a.now) ==> Choose(t, a, dealer) == Issue(AbortHand(dealer.abortReason))
    ensures !DealerMayAbort(t.body.plan, a.now) ==> !Choose(t, a, dealer).Issue?
  {
  }

  /** A hand that still collects contributions is progressed exactly when its round is public and the service
      accepts the abort, and then the store is what the service made of it. */
  lemma PublicRoundIsTreated(write: Writer, db: Database, t: H.HandSnapshot, a: Answers, dealer: Dealer)
    requires t.body.id in db.hands && db.hands[t.body.id] == t && HandLemmas.InFairness(t.body.phase)
             && a.commandId.Some?
    ensures var op := AbortHand(dealer.abortReason);
            var (db', r) := write(db, dealer.actor, CommandFor(db, t, op, a.commandId.value, a.now, dealer), op, a.env);
            var treated := Treat(write, db, t.body.id, a, dealer);
            && (treated.1 == Progressed <==> DealerMayAbort(t.body.plan, a.now) && r.Ok? && r.value.accepted)
            && treated.0 == if DealerMayAbort(t.body.plan, a.now) then db' else db
  {
    PublishedRoundIsAborted(t, a, dealer);
    if DealerMayAbort(t.body.plan, a.now) {
      TreatedByWriting(write, db, t, a, dealer, AbortHand(dealer.abortReason));
    }
  }

  /** Treating a hand for which a command other than a deal is chosen. */
  lemma TreatedByWriting(write: Writer, db: Database, t: H.HandSnapshot, a: Answers, dealer: Dealer, op: Operation)
    requires t.body.id in db.hands && db.hands[t.body.id] == t && Choose(t, a, dealer) == Issue(op) && a.commandId.Some?
             && !op.MarkHandDealt?
    ensures var (db', r) := write(db, dealer.actor, CommandFor(db, t, op, a.commandId.value, a.now, dealer), op, a.env);
            Treat(write, db, t.body.id, a, dealer) == (db', if r.Ok? && r.value.accepted then Progressed else Stopped)
  {
  }
}
