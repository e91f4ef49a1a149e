/** What the hand's transitions mean for its players, and when a hand refuses. */
module HandMeaning {
  import opened Bytes
  import opened Text
  import opened Domain
  import opened HandModel
  import opened HandLemmas

  /** The account holds seat i + 1. */
  predicate Holds(h: HandState, account: Text, i: nat) {
    i < 3 && exists k :: 0 <= k < 3 && h.seats[k] == HandSeat(i + 1, account)
  }

  predicate OthersStay(h: HandState, h': HandState, i: nat) {
    forall j :: 0 <= j < 3 && j != i ==> h'.contributions[j] == h.contributions[j]
  }

  predicate AllCommitted(h: HandState) {
    forall i :: 0 <= i < 3 ==> h.contributions[i].commitment != ZeroBlock()
  }

  predicate AllRevealed(h: HandState) {
    forall i :: 0 <= i < 3 ==> h.contributions[i].revealed
  }

  /** Nothing but contributions, phase and version may differ. */
  predicate OnlyContributed(h: HandState, h': HandState) {
    h' == h.(contributions := h'.contributions, phase := h'.phase, version := h'.version)
  }

  predicate Named(events: seq<Event>, names: seq<EventName>) {
    |events| == |names| && forall i :: 0 <= i < |events| ==> events[i].name == names[i]
  }

  // ------------------------------------------------------------------ accepted actions

  /** A new hand has what it was given, and no contribution, beacon or reason yet. */
  lemma CreatingKeepsSetup(mode: FairnessMode, id: Text, roomId: Text, seats: ThreeHandSeats, serverCommitment: Block,
                           revealKeyId: Text, plan: BeaconPlan, publicKey: Block, boundAt: nat)
    requires NewHand(mode, id, roomId, seats, serverCommitment, revealKeyId, plan, publicKey, boundAt).Done?
    ensures var t := NewHand(mode, id, roomId, seats, serverCommitment, revealKeyId, plan, publicKey, boundAt);
            && t.state == HandState(mode, id, roomId, Committing, seats, serverCommitment, revealKeyId, publicKey,
                                    boundAt, plan, None, [NOTHING, NOTHING, NOTHING], [], 1)
            && t.events == [Event(AggregateHand, id, HandCreated, 1)]
  {
  }

  lemma SeatIsHeld(h: HandState, actor: Text)
    requires ResolveSeat(h, actor).Ok? && 1 <= ResolveSeat(h, actor).value <= 3
    ensures Holds(h, actor, ResolveSeat(h, actor).value - 1)
  {
    var seat := ResolveSeat(h, actor).value;
    if h.seats[0].account == actor {
      assert h.seats[0] == HandSeat(seat, actor);
    } else if h.seats[1].account == actor {
      assert h.seats[1] == HandSeat(seat, actor);
    } else {
      assert h.seats[2] == HandSeat(seat, actor);
    }
  }

  /** A commitment is recorded for the actor's own seat, which had none; the third one opens the revealing. */
  lemma CommittingRecords(h: HandState, actor: Text, commitment: Block, expected: nat) returns (i: nat)
    requires SubmitCommit(h, actor, commitment, expected).Done?
    ensures var t := SubmitCommit(h, actor, commitment, expected); var h' := t.state;
            && h.version == expected && h.phase == Committing && Holds(h, actor, i) && OnlyContributed(h, h')
            && h.contributions[i].commitment == ZeroBlock()
            && h'.contributions[i] == h.contributions[i].(commitment := commitment) && OthersStay(h, h', i)
            && h'.phase == (if AllCommitted(h') then Revealing else Committing)
            && Named(t.events, [CommitAccepted] + if AllCommitted(h') then [PhaseChanged] else [])
  {
    CommitIsStep(h, actor, commitment, expected);
    SeatIsHeld(h, actor);
    i := ResolveSeat(h, actor).value - 1;
  }

  /** A reveal is recorded for the actor's own seat, whose commitment it opens; the third one closes the fairness
      phases. */
  lemma RevealingRecords(h: HandState, commitOf: CommitFunction, actor: Text, digest: Block, ref: Text, expected: nat)
      returns (i: nat)
    requires SubmitReveal(h, commitOf, actor, digest, ref, expected).Done?
    ensures var t := SubmitReveal(h, commitOf, actor, digest, ref, expected); var h' := t.state;
            && h.version == expected && h.phase == Revealing && Holds(h, actor, i) && OnlyContributed(h, h')
            && !h.contributions[i].revealed && h.contributions[i].commitment == commitOf(h.id, i + 1, digest)
            && h'.contributions[i] == Contribution(h.contributions[i].commitment, true, digest, Trim(ref))
            && OthersStay(h, h', i)
            && h'.phase == (if AllRevealed(h') then WaitingBeacon else Revealing)
            && Named(t.events, [RevealAccepted] + if AllRevealed(h') then [PhaseChanged] else [])
  {
    RevealIsStep(h, commitOf, actor, digest, ref, expected);
    SeatIsHeld(h, actor);
    i := ResolveSeat(h, actor).value - 1;
  }

  /** A custodied contribution commits and reveals the actor's own seat at once. */
  lemma CustodiedRecords(h: HandState, commitOf: CommitFunction, actor: Text, digest: Block, ref: Text, expected: nat)
      returns (i: nat)
    requires SubmitCustodied(h, commitOf, actor, digest, ref, expected).Done?
    ensures var t := SubmitCustodied(h, commitOf, actor, digest, ref, expected); var h' := t.state;
            && h.version == expected && h.phase == Committing && Holds(h, actor, i) && OnlyContributed(h, h')
            && !h.contributions[i].revealed && h.contributions[i].commitment == ZeroBlock()
            && h'.contributions[i] == Contribution(commitOf(h.id, i + 1, digest), true, digest, Trim(ref))
            && OthersStay(h, h', i)
            && h'.phase == (if AllRevealed(h') then WaitingBeacon else Committing)
            && Named(t.events, [CommitAccepted, RevealAccepted] + if AllRevealed(h') then [PhaseChanged] else [])
  {
    CustodiedIsStep(h, commitOf, actor, digest, ref, expected);
    SeatIsHeld(h, actor);
    i := ResolveSeat(h, actor).value - 1;
  }

  /** The beacon that is locked is the value given, its reference trimmed, and it is one of the hand's own plan. */
  lemma LockingKeepsValue(h: HandState, value: BeaconValue, expected: nat)
    requires LockPublicBeacon(h, value, expected).Done?
    ensures var t := LockPublicBeacon(h, value, expected); var h' := t.state;
            && h.version == expected && h.phase == WaitingBeacon
            && BeaconPlan(value.provider, value.round) == h.plan
            && h'.beacon == Some(BeaconValue(value.provider, value.round, value.digest, Trim(value.proofRef)))
            && h' == h.(beacon := h'.beacon, phase := Dealing, version := h'.version)
            && Named(t.events, [BeaconLocked, PhaseChanged])
  {
  }

  /** The phase that an advancing action leaves, and the one it enters. */
  predicate Advances(a: HandAction, from: Phase, to: Phase) {
    match a
    case DealtAction(_) => from == Dealing && to == Bidding
    case PlayAction(_) => from == Bidding && to == Playing
    case SettleAction(_) => from == Playing && to == Settling
    case CompleteAction(_) => from == Settling && to == Completed
    case _ => false
  }

  lemma AdvancingChangesPhase(h: HandState, commitOf: CommitFunction, a: HandAction)
    requires a.DealtAction? || a.PlayAction? || a.SettleAction? || a.CompleteAction?
    requires Apply(h, commitOf, a).Done?
    ensures var t := Apply(h, commitOf, a); var h' := t.state;
            && h.version == a.expected && Advances(a, h.phase, h'.phase)
            && h' == h.(phase := h'.phase, version := h.version + 1) && Named(t.events, [PhaseChanged])
  {
  }

  /** The phase that an early ending enters. */
  predicate Stops(a: HandAction, to: Phase) {
    match a
    case CancelAction(_, _) => to == Cancelled
    case AbortAction(_, _) => to == Aborted
    case ExpireAction(_, _) => to == Expired
    case _ => false
  }

  predicate Stopping(a: HandAction) {
    a.CancelAction? || a.AbortAction? || a.ExpireAction?
  }

  /** An early ending keeps everything but the phase and the reason it gives; only an undealt hand is cancelled. */
  lemma StoppingGivesReason(h: HandState, commitOf: CommitFunction, a: HandAction)
    requires Stopping(a) && Apply(h, commitOf, a).Done?
    ensures var t := Apply(h, commitOf, a); var h' := t.state;
            && h.version == a.expected && !Terminal(h.phase) && Stops(a, h'.phase)
            && (a.CancelAction? ==> InFairness(h.phase) || h.phase in {WaitingBeacon, UnknownPhase})
            && h' == h.(phase := h'.phase, reason := Trim(a.reason), version := h.version + 2)
            && Named(t.events, [HandTerminated, PhaseChanged])
  {
  }

  // ------------------------------------------------------------------ refused actions

  predicate InPlay(h: HandState) {
    h.phase in {Dealing, Bidding, Playing, Settling}
  }

  /** The hand is in the mode and the phase that the action belongs to. */
  predicate InPhase(h: HandState, a: HandAction) {
    match a
    case CommitAction(_, _, _) => h.mode != ClientCustodied && h.phase == Committing
    case RevealAction(_, _, _, _) => h.mode != ClientCustodied && h.phase == Revealing
    case CustodiedAction(_, _, _, _) => h.mode == ClientCustodied && h.phase == Committing
    case LockAction(_, _) => h.phase == WaitingBeacon
    case DealtAction(_) => h.phase == Dealing
    case PlayAction(_) => h.phase == Bidding
    case SettleAction(_) => h.phase == Playing
    case CompleteAction(_) => h.phase == Settling
    case CancelAction(_, _) => !InPlay(h)
    case AbortAction(_, _) => true
    case ExpireAction(_, _) => true
  }

  predicate WellFormed(a: HandAction) {
    match a
    case CommitAction(actor, commitment, _) => ValidIdentifier(actor) && commitment != ZeroBlock()
    case RevealAction(actor, digest, ref, _) =>
      ValidIdentifier(actor) && digest != ZeroBlock() && !Blank(ref) && |Trim(ref)| <= 256
    case CustodiedAction(actor, digest, ref, _) =>
      ValidIdentifier(actor) && digest != ZeroBlock() && !Blank(ref) && |Trim(ref)| <= 256
    case LockAction(value, _) => value.digest != ZeroBlock() && !Blank(value.proofRef) && |Trim(value.proofRef)| <= 512
    case CancelAction(reason, _) => !Blank(reason) && |Trim(reason)| <= 256
    case AbortAction(reason, _) => !Blank(reason) && |Trim(reason)| <= 256
    case ExpireAction(reason, _) => !Blank(reason) && |Trim(reason)| <= 256
    case _ => true
  }

  predicate Plays(h: HandState, account: Text) {
    exists k :: 0 <= k < 3 && h.seats[k].account == account
  }

  /** A reason against an action: what the error says is true of the hand. */
  ghost predicate Against(h: HandState, commitOf: CommitFunction, a: HandAction, e: Error) {
    match e
    case VersionConflict(expected, actual) => expected == a.expected && actual == h.version && expected != actual
    case HandIsTerminal => Terminal(h.phase)
    case WrongPhase => !InPhase(h, a)
    case InvalidArgument => !WellFormed(a)
    case NotSeated => IsContribution(a) && !Plays(h, a.actor)
    case DuplicateContribution =>
      && IsContribution(a)
      && exists i :: 0 <= i < 3 && Holds(h, a.actor, i)
                     && if a.RevealAction? then h.contributions[i].revealed
                        else h.contributions[i].commitment != ZeroBlock()
    case CommitmentMismatch =>
      && a.RevealAction?
      && exists i :: 0 <= i < 3 && Holds(h, a.actor, i)
                     && h.contributions[i].commitment != commitOf(h.id, i + 1, a.digest)
    case BeaconMismatch => a.LockAction? && BeaconPlan(a.value.provider, a.value.round) != h.plan
    case _ => false
  }

  lemma ResolvedOrNot(h: HandState, actor: Text)
    requires ValidHandSeats(h.seats) && ValidIdentifier(actor)
    ensures ResolveSeat(h, actor).Ok? ==>
              1 <= ResolveSeat(h, actor).value <= 3 && Holds(h, actor, ResolveSeat(h, actor).value - 1)
    ensures ResolveSeat(h, actor).Err? ==> ResolveSeat(h, actor) == Err(NotSeated) && !Plays(h, actor)
  {
    if ResolveSeat(h, actor).Ok? {
      SeatIsHeld(h, actor);
    }
  }

  lemma CommitRefusedTruly(h: HandState, commitOf: CommitFunction, actor: Text, commitment: Block, expected: nat)
    requires Invariant(h) && SubmitCommit(h, actor, commitment, expected).Refused?
    ensures Against(h, commitOf, CommitAction(actor, commitment, expected),
                    SubmitCommit(h, actor, commitment, expected).error)
  {
    if ValidIdentifier(actor) {
      ResolvedOrNot(h, actor);
    }
  }

  lemma RevealRefusedTruly(h: HandState, commitOf: CommitFunction, actor: Text, digest: Block, ref: Text, expected: nat)
    requires Invariant(h) && SubmitReveal(h, commitOf, actor, digest, ref, expected).Refused?
    ensures Against(h, commitOf, RevealAction(actor, digest, ref, expected),
                    SubmitReveal(h, commitOf, actor, digest, ref, expected).error)
  {
    if ValidIdentifier(actor) {
      ResolvedOrNot(h, actor);
    }
  }

  lemma CustodiedRefusedTruly(h: HandState, commitOf: CommitFunction, actor: Text, digest: Block, ref: Text,
                              expected: nat)
    requires Invariant(h) && SubmitCustodied(h, commitOf, actor, digest, ref, expected).Refused?
    ensures Against(h, commitOf, CustodiedAction(actor, digest, ref, expected),
                    SubmitCustodied(h, commitOf, actor, digest, ref, expected).error)
  {
    if ValidIdentifier(actor) {
      ResolvedOrNot(h, actor);
    }
  }

  lemma AdvanceRefusedTruly(h: HandState, commitOf: CommitFunction, a: HandAction)
    requires a.DealtAction? || a.PlayAction? || a.SettleAction? || a.CompleteAction?
    requires Apply(h, commitOf, a).Refused?
    ensures Against(h, commitOf, a, Apply(h, commitOf, a).error)
  {
  }

  lemma StopRefusedTruly(h: HandState, commitOf: CommitFunction, a: HandAction)
    requires Stopping(a) && Apply(h, commitOf, a).Refused?
    ensures Against(h, commitOf, a, Apply(h, commitOf, a).error)
  {
  }

  /** Every refusal gives a reason that holds. */
  lemma RefusalsAreTrue(h: HandState, commitOf: CommitFunction, a: HandAction)
    requires Invariant(h) && Apply(h, commitOf, a).Refused?
    ensures Against(h, commitOf, a, Apply(h, commitOf, a).error)
  {
    match a
    case CommitAction(actor, commitment, expected) => CommitRefusedTruly(h, commitOf, actor, commitment, expected);
    case RevealAction(actor, digest, ref, expected) => RevealRefusedTruly(h, commitOf, actor, digest, ref, expected);
    case CustodiedAction(actor, digest, ref, expected) =>
      CustodiedRefusedTruly(h, commitOf, actor, digest, ref, expected);
    case LockAction(value, expected) =>
    case CancelAction(_, _) => StopRefusedTruly(h, commitOf, a);
    case AbortAction(_, _) => StopRefusedTruly(h, commitOf, a);
    case ExpireAction(_, _) => StopRefusedTruly(h, commitOf, a);
    case _ => AdvanceRefusedTruly(h, commitOf, a);
  }

  /** Nobody holds two seats. */
  lemma OneSeatEach(h: HandState, account: Text, i: nat, j: nat)
    requires ValidHandSeats(h.seats) && Holds(h, account, i) && Holds(h, account, j)
    ensures i == j
  {
  }

  /** What an accepted contribution has passed. */
  ghost predicate MayContribute(h: HandState, commitOf: CommitFunction, a: HandAction, i: nat) {
    && IsContribution(a) && h.version == a.expected && InPhase(h, a) && WellFormed(a) && Holds(h, a.actor, i)
    && !h.contributions[i].revealed
    && if a.RevealAction? then h.contributions[i].commitment == commitOf(h.id, i + 1, a.digest)
       else h.contributions[i].commitment == ZeroBlock()
  }

  lemma CommittersMay(h: HandState, commitOf: CommitFunction, actor: Text, commitment: Block, expected: nat)
      returns (i: nat)
    requires Invariant(h) && SubmitCommit(h, actor, commitment, expected).Done?
    ensures MayContribute(h, commitOf, CommitAction(actor, commitment, expected), i)
  {
    UnrevealedWhileCommitting(h);
    SeatIsHeld(h, actor);
    i := ResolveSeat(h, actor).value - 1;
  }

  lemma RevealersMay(h: HandState, commitOf: CommitFunction, actor: Text, digest: Block, ref: Text, expected: nat)
      returns (i: nat)
    requires SubmitReveal(h, commitOf, actor, digest, ref, expected).Done?
    ensures MayContribute(h, commitOf, RevealAction(actor, digest, ref, expected), i)
  {
    SeatIsHeld(h, actor);
    i := ResolveSeat(h, actor).value - 1;
  }

  lemma CustodiansMay(h: HandState, commitOf: CommitFunction, actor: Text, digest: Block, ref: Text, expected: nat)
      returns (i: nat)
    requires SubmitCustodied(h, commitOf, actor, digest, ref, expected).Done?
    ensures MayContribute(h, commitOf, CustodiedAction(actor, digest, ref, expected), i)
  {
    SeatIsHeld(h, actor);
    i := ResolveSeat(h, actor).value - 1;
  }

  lemma ContributesWithoutReason(h: HandState, commitOf: CommitFunction, a: HandAction, i: nat, e: Error)
    requires ValidHandSeats(h.seats) && MayContribute(h, commitOf, a, i)
    ensures !Against(h, commitOf, a, e)
  {
    forall j | 0 <= j < 3 && Holds(h, a.actor, j) ensures j == i {
      OneSeatEach(h, a.actor, i, j);
    }
    assert Plays(h, a.actor);
  }

  lemma ContributedWithoutReason(h: HandState, commitOf: CommitFunction, a: HandAction, e: Error)
    requires Invariant(h) && IsContribution(a) && Apply(h, commitOf, a).Done?
    ensures !Against(h, commitOf, a, e)
  {
    var i: nat;
    match a {
      case CommitAction(actor, commitment, expected) => i := CommittersMay(h, commitOf, actor, commitment, expected);
      case RevealAction(actor, digest, ref, expected) => i := RevealersMay(h, commitOf, actor, digest, ref, expected);
      case CustodiedAction(actor, digest, ref, expected) =>
        i := CustodiansMay(h, commitOf, actor, digest, ref, expected);
    }
    ContributesWithoutReason(h, commitOf, a, i, e);
  }

  lemma AdvancedWithoutReason(h: HandState, commitOf: CommitFunction, a: HandAction, e: Error)
    requires a.DealtAction? || a.PlayAction? || a.SettleAction? || a.CompleteAction?
    requires Apply(h, commitOf, a).Done?
    ensures !Against(h, commitOf, a, e)
  {
  }

  lemma StoppedWithoutReason(h: HandState, commitOf: CommitFunction, a: HandAction, e: Error)
    requires Stopping(a) && Apply(h, commitOf, a).Done?
    ensures !Against(h, commitOf, a, e)
  {
  }

  /** An action that is accepted has no reason against it. */
  lemma AcceptedWithoutReason(h: HandState, commitOf: CommitFunction, a: HandAction, e: Error)
    requires Invariant(h) && Apply(h, commitOf, a).Done?
    ensures !Against(h, commitOf, a, e)
  {
    if IsContribution(a) {
      ContributedWithoutReason(h, commitOf, a, e);
    } else if Stopping(a) {
      StoppedWithoutReason(h, commitOf, a, e);
    } else if !a.LockAction? {
      AdvancedWithoutReason(h, commitOf, a, e);
    }
  }

  /** A hand accepts an action exactly when there is no reason against it. */
  lemma AcceptedIffNothingAgainst(h: HandState, commitOf: CommitFunction, a: HandAction)
    requires Invariant(h)
    ensures Apply(h, commitOf, a).Done? <==> forall e :: !Against(h, commitOf, a, e)
  {
    if Apply(h, commitOf, a).Refused? {
      RefusalsAreTrue(h, commitOf, a);
    } else {
      forall e ensures !Against(h, commitOf, a, e) {
        AcceptedWithoutReason(h, commitOf, a, e);
      }
    }
  }

  // ------------------------------------------------------------------ stored hands

  /** The snapshots that load are exactly those of hands that satisfy the invariant, and each loads as its hand. The
      stored form has no contributions in its body. */
  lemma LoadableIffSaved(t: HandSnapshot)
    requires t.body.contributions == [NOTHING, NOTHING, NOTHING]
    ensures Restore(t).Ok? <==> exists h :: Invariant(h) && Snapshot(h) == t
    ensures Restore(t).Ok? ==> Snapshot(Restore(t).value) == t && Invariant(Restore(t).value)
  {
    if Restore(t).Ok? {
      var h := Restore(t).value;
      assert Snapshot(h).contributions == t.contributions;
      assert Snapshot(h) == t;
      SoundIffInvariant(h);
    }
    if h :| Invariant(h) && Snapshot(h) == t {
      SoundIffInvariant(h);
    }
  }
}
