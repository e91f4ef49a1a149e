/** The hand aggregate as the object the service mutates. */
module HandAggregate {
  import opened Bytes
  import opened Text
  import opened Domain
  import opened HandModel
  import Spec = HandModel

  class Hand {
    const setup: HandState
    const commitOf: CommitFunction
    var phase: Phase
    var beacon: Option<BeaconValue>
    var contributions: ThreeContributions
    var reason: Text
    var version: nat

    function State(): HandState
      reads this
    {
      setup.(phase := phase, beacon := beacon, contributions := contributions, reason := reason, version := version)
    }

    constructor (h: HandState, commitOf: CommitFunction)
      ensures State() == h && this.commitOf == commitOf
    {
      setup, this.commitOf := h, commitOf;
      phase, beacon, contributions, reason, version := h.phase, h.beacon, h.contributions, h.reason, h.version;
    }

    /** Bumps the version and appends the event that carries it. */
    method Record(name: EventName, events: seq<Event>) returns (all: seq<Event>)
      modifies this`version
      ensures Done(State(), all) == Spec.Record(old(State()), name, events)
    {
      version := version + 1;
      all := events + [Event(AggregateHand, setup.id, name, version)];
    }

    method ChangePhase(to: Phase, events: seq<Event>) returns (all: seq<Event>)
      modifies this`version, this`phase
      ensures Done(State(), all) == Spec.ChangePhase(old(State()), to, events)
    {
      phase := to;
      all := Record(PhaseChanged, events);
    }

    method PrepareMutation(expected: nat, required: Phase) returns (r: Option<Error>)
      ensures r == Prepare(State(), expected, required)
    {
      if version != expected { return Some(VersionConflict(expected, version)); }
      if Terminal(phase) { return Some(HandIsTerminal); }
      if phase != required { return Some(WrongPhase); }
      return None;
    }

    method ResolveSeat(actor: Text) returns (r: Result<nat>)
      ensures r == Spec.ResolveSeat(State(), actor)
    {
      if !ValidIdentifier(actor) { return Err(InvalidArgument); }
      var i := 0;
      while i < 3
        invariant 0 <= i <= 3
        invariant forall j :: 0 <= j < i ==> setup.seats[j].account != actor
      {
        if setup.seats[i].account == actor { return Ok(setup.seats[i].seat); }
        i := i + 1;
      }
      return Err(NotSeated);
    }

    method CountCommitments() returns (count: nat)
      ensures count == CommitCount(contributions)
    {
      count := 0;
      if contributions[0].commitment != ZeroBlock() { count := count + 1; }
      if contributions[1].commitment != ZeroBlock() { count := count + 1; }
      if contributions[2].commitment != ZeroBlock() { count := count + 1; }
    }

    method CountReveals() returns (count: nat)
      ensures count == RevealCount(contributions)
    {
      count := 0;
      if contributions[0].revealed { count := count + 1; }
      if contributions[1].revealed { count := count + 1; }
      if contributions[2].revealed { count := count + 1; }
    }

    method SubmitCommit(actor: Text, commitment: Block, expected: nat) returns (r: Result<seq<Event>>)
      requires ValidHandSeats(setup.seats)
      modifies this
      ensures Performs(old(State()), Spec.SubmitCommit(old(State()), actor, commitment, expected), State(), r)
    {
      if setup.mode == ClientCustodied { return Err(WrongPhase); }
      var unprepared := PrepareMutation(expected, Committing);
      if unprepared.Some? { return Err(unprepared.value); }
      var seat :- ResolveSeat(actor);
      if commitment == ZeroBlock() { return Err(InvalidArgument); }
      if contributions[seat - 1].commitment != ZeroBlock() { return Err(DuplicateContribution); }
      contributions := contributions[seat - 1 := contributions[seat - 1].(commitment := commitment)];
      var events := Record(CommitAccepted, []);
      var count := CountCommitments();
      if count == 3 {
        events := ChangePhase(Revealing, events);
      }
      return Ok(events);
    }

    method SubmitReveal(actor: Text, digest: Block, recordRef: Text, expected: nat) returns (r: Result<seq<Event>>)
      requires ValidHandSeats(setup.seats)
      modifies this
      ensures Performs(old(State()), Spec.SubmitReveal(old(State()), commitOf, actor, digest, recordRef, expected),
                       State(), r)
    {
      if setup.mode == ClientCustodied { return Err(WrongPhase); }
      var unprepared := PrepareMutation(expected, Revealing);
      if unprepared.Some? { return Err(unprepared.value); }
      var seat :- ResolveSeat(actor);
      if digest == ZeroBlock() { return Err(InvalidArgument); }
      var ref := Trim(recordRef);
      if ref == [] || |ref| > 256 { return Err(InvalidArgument); }
      var current := contributions[seat - 1];
      if current.commitment == ZeroBlock() { return Err(WrongPhase); }
      if current.revealed { return Err(DuplicateContribution); }
      if commitOf(setup.id, seat, digest) != current.commitment { return Err(CommitmentMismatch); }
      contributions := contributions[seat - 1 := Contribution(current.commitment, true, digest, ref)];
      var events := Record(RevealAccepted, []);
      var count := CountReveals();
      if count == 3 {
        events := ChangePhase(WaitingBeacon, events);
      }
      return Ok(events);
    }

    method SubmitCustodiedContribution(actor: Text, digest: Block, recordRef: Text, expected: nat)
      returns (r: Result<seq<Event>>)
      requires ValidHandSeats(setup.seats)
      modifies this
      ensures Performs(old(State()), SubmitCustodied(old(State()), commitOf, actor, digest, recordRef, expected),
                       State(), r)
    {
      if setup.mode != ClientCustodied { return Err(WrongPhase); }
      var unprepared := PrepareMutation(expected, Committing);
      if unprepared.Some? { return Err(unprepared.value); }
      var seat :- ResolveSeat(actor);
      var ref := Trim(recordRef);
      if ref == [] || |ref| > 256 || digest == ZeroBlock() { return Err(InvalidArgument); }
      var current := contributions[seat - 1];
      if current.commitment != ZeroBlock() || current.revealed { return Err(DuplicateContribution); }
      contributions := contributions[seat - 1 := Contribution(commitOf(setup.id, seat, digest), true, digest, ref)];
      var events := Record(CommitAccepted, []);
      events := Record(RevealAccepted, events);
      var count := CountReveals();
      if count == 3 {
        events := ChangePhase(WaitingBeacon, events);
      }
      return Ok(events);
    }

    method LockPublicBeacon(value: BeaconValue, expected: nat) returns (r: Result<seq<Event>>)
      modifies this
      ensures Performs(old(State()), Spec.LockPublicBeacon(old(State()), value, expected), State(), r)
    {
      var unprepared := PrepareMutation(expected, WaitingBeacon);
      if unprepared.Some? { return Err(unprepared.value); }
      if value.provider != setup.plan.provider || value.round != setup.plan.round { return Err(BeaconMismatch); }
      if value.digest == ZeroBlock() { return Err(InvalidArgument); }
      var proof := Trim(value.proofRef);
      if proof == [] || |proof| > 512 { return Err(InvalidArgument); }
      beacon := Some(value.(proofRef := proof));
      var events := Record(BeaconLocked, []);
      events := ChangePhase(Dealing, events);
      return Ok(events);
    }

    method Advance(from: Phase, to: Phase, expected: nat) returns (r: Result<seq<Event>>)
      modifies this
      ensures Performs(old(State()), Spec.Advance(old(State()), from, to, expected), State(), r)
    {
      var unprepared := PrepareMutation(expected, from);
      if unprepared.Some? { return Err(unprepared.value); }
      var events := ChangePhase(to, []);
      return Ok(events);
    }

    method Terminate(terminal: Phase, why: Text, expected: nat) returns (r: Result<seq<Event>>)
      modifies this
      ensures Performs(old(State()), Spec.Terminate(old(State()), terminal, why, expected), State(), r)
    {
      if version != expected { return Err(VersionConflict(expected, version)); }
      if Terminal(phase) { return Err(HandIsTerminal); }
      var trimmed := Trim(why);
      if trimmed == [] || |trimmed| > 256 { return Err(InvalidArgument); }
      reason := trimmed;
      phase := terminal;
      var events := Record(HandTerminated, []);
      events := Record(PhaseChanged, events);
      return Ok(events);
    }

    method Cancel(why: Text, expected: nat) returns (r: Result<seq<Event>>)
      modifies this
      ensures Performs(old(State()), Spec.Cancel(old(State()), why, expected), State(), r)
    {
      if phase == Dealing || phase == Bidding || phase == Playing || phase == Settling { return Err(WrongPhase); }
      r := Terminate(Cancelled, why, expected);
    }
  }

  /** RestoreHand: the checks, the contributions in a loop. */
  method RestoreHand(t: HandSnapshot, commitOf: CommitFunction) returns (r: Result<Hand>)
    ensures match Restore(t)
            case Ok(h) => r.Ok? && fresh(r.value) && r.value.State() == h && r.value.commitOf == commitOf
            case Err(e) => r.Err?
  {
    if t.body.mode == UnknownMode || !ValidSetup(t.body) || t.body.version == 0 { return Err(InvalidArgument); }
    if !BeaconFine(t.body) { return Err(InvalidArgument); }
    var contributions: seq<Contribution> := [];
    var index := 0;
    while index < 3
      invariant 0 <= index <= 3
      invariant contributions == Rebuilt(t).contributions[..index]
      invariant forall j :: 0 <= j < index ==> StoredFine(t, j)
    {
      var current := t.contributions[index];
      if !StoredFine(t, index) { return Err(InvalidArgument); }
      contributions := contributions + [current.value];
      index := index + 1;
    }
    assert contributions == Rebuilt(t).contributions;
    var hand := new Hand(t.body.(contributions := contributions), commitOf);
    if !PhaseConsistent(hand.State()) { return Err(InvalidArgument); }
    return Ok(hand);
  }
}
