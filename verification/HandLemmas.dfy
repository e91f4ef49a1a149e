/** What hand transitions keep: soundness for storage, and the order of commitments, reveals and beacon. */
module HandLemmas {
  import opened Bytes
  import opened Text
  import opened Domain
  import opened HandModel

  lemma NewHandIsSound(mode: FairnessMode, id: Text, roomId: Text, seats: ThreeHandSeats, serverCommitment: Block,
                       revealKeyId: Text, plan: BeaconPlan, publicKey: Block, boundAt: nat)
    requires mode != UnknownMode
    requires NewHand(mode, id, roomId, seats, serverCommitment, revealKeyId, plan, publicKey, boundAt).Done?
    ensures var t := NewHand(mode, id, roomId, seats, serverCommitment, revealKeyId, plan, publicKey, boundAt);
            Sound(t.state) && t.state.version == 1 && Numbered(t.events, AggregateHand, id, 0)
  {
    SoundIffInvariant(NewHand(mode, id, roomId, seats, serverCommitment, revealKeyId, plan, publicKey, boundAt).state);
  }

  lemma CountsAfter(c: ThreeContributions, i: nat, x: Contribution)
    requires i < 3
    ensures CommitCount(c[i := x]) == CommitCount(c)
              + (if x.commitment != ZeroBlock() then 1 else 0) - (if c[i].commitment != ZeroBlock() then 1 else 0)
    ensures RevealCount(c[i := x]) == RevealCount(c) + (if x.revealed then 1 else 0) - (if c[i].revealed then 1 else 0)
    ensures ContributionsFine(c) && ContributionFine(x) ==> ContributionsFine(c[i := x])
  {
    if i == 0 {
    } else if i == 1 {
    } else {
    }
  }

  /** `h'` is `h` with contribution i replaced, in the phase `to` when all three are in. */
  ghost predicate Contributed(h: HandState, h': HandState, i: nat, x: Contribution, all: bool, to: Phase, events: nat) {
    && i < 3
    && h' == h.(contributions := h.contributions[i := x],
                phase := if all then to else h.phase,
                version := h.version + (if all then events + 1 else events))
  }

  ghost predicate CommitStep(h: HandState, h': HandState, i: nat, commitment: Block) {
    && i < 3 && h.phase == Committing && h.mode != ClientCustodied
    && commitment != ZeroBlock() && h.contributions[i].commitment == ZeroBlock()
    && Contributed(h, h', i, h.contributions[i].(commitment := commitment), CommitCount(h'.contributions) == 3,
                   Revealing, 1)
  }

  ghost predicate RevealStep(h: HandState, h': HandState, commitOf: CommitFunction, i: nat, digest: Block, ref: Text) {
    && i < 3 && h.phase == Revealing && h.contributions[i].commitment != ZeroBlock() && !h.contributions[i].revealed
    && digest != ZeroBlock() && !Blank(ref) && |ref| <= 256
    && h.contributions[i].commitment == commitOf(h.id, i + 1, digest)
    && Contributed(h, h', i, Contribution(h.contributions[i].commitment, true, digest, ref),
                   RevealCount(h'.contributions) == 3, WaitingBeacon, 1)
  }

  ghost predicate CustodiedStep(h: HandState, h': HandState, commitOf: CommitFunction, i: nat, digest: Block,
                                ref: Text) {
    && i < 3 && h.phase == Committing && h.mode == ClientCustodied
    && h.contributions[i].commitment == ZeroBlock() && !h.contributions[i].revealed
    && digest != ZeroBlock() && !Blank(ref) && |ref| <= 256
    && Contributed(h, h', i, Contribution(commitOf(h.id, i + 1, digest), true, digest, ref),
                   RevealCount(h'.contributions) == 3, WaitingBeacon, 2)
  }

  lemma CommitIsStep(h: HandState, actor: Text, commitment: Block, expected: nat)
    requires SubmitCommit(h, actor, commitment, expected).Done?
    ensures CommitStep(h, SubmitCommit(h, actor, commitment, expected).state, ResolveSeat(h, actor).value - 1,
                       commitment)
  {
  }

  lemma RevealIsStep(h: HandState, commitOf: CommitFunction, actor: Text, digest: Block, ref: Text, expected: nat)
    requires SubmitReveal(h, commitOf, actor, digest, ref, expected).Done?
    ensures RevealStep(h, SubmitReveal(h, commitOf, actor, digest, ref, expected).state, commitOf,
                       ResolveSeat(h, actor).value - 1, digest, Trim(ref))
  {
    TrimIsIdempotent(ref);
  }

  lemma CustodiedIsStep(h: HandState, commitOf: CommitFunction, actor: Text, digest: Block, ref: Text, expected: nat)
    requires SubmitCustodied(h, commitOf, actor, digest, ref, expected).Done?
    ensures CustodiedStep(h, SubmitCustodied(h, commitOf, actor, digest, ref, expected).state, commitOf,
                          ResolveSeat(h, actor).value - 1, digest, Trim(ref))
  {
    TrimIsIdempotent(ref);
  }

  lemma CommitKeepsInvariant(h: HandState, h': HandState, i: nat, commitment: Block)
    requires Invariant(h) && CommitStep(h, h', i, commitment)
    ensures Invariant(h')
  {
    CountsAfter(h.contributions, i, h.contributions[i].(commitment := commitment));
  }

  lemma RevealKeepsInvariant(h: HandState, h': HandState, commitOf: CommitFunction, i: nat, digest: Block, ref: Text)
    requires Invariant(h) && RevealStep(h, h', commitOf, i, digest, ref)
    ensures Invariant(h')
  {
    CountsAfter(h.contributions, i, Contribution(h.contributions[i].commitment, true, digest, ref));
  }

  lemma CustodiedKeepsInvariant(h: HandState, h': HandState, commitOf: CommitFunction, i: nat, digest: Block, ref: Text)
    requires NeverZero(commitOf) && Invariant(h) && CustodiedStep(h, h', commitOf, i, digest, ref)
    ensures Invariant(h')
  {
    CountsAfter(h.contributions, i, Contribution(commitOf(h.id, i + 1, digest), true, digest, ref));
  }

  lemma LockKeepsInvariant(h: HandState, value: BeaconValue, expected: nat)
    requires Invariant(h) && LockPublicBeacon(h, value, expected).Done?
    ensures Invariant(LockPublicBeacon(h, value, expected).state)
  {
    TrimIsIdempotent(value.proofRef);
  }

  lemma TerminateKeepsInvariant(h: HandState, terminal: Phase, reason: Text, expected: nat)
    requires terminal in {Cancelled, Aborted, Expired}
    requires Invariant(h) && Terminate(h, terminal, reason, expected).Done?
    ensures Invariant(Terminate(h, terminal, reason, expected).state)
  {
    TrimIsIdempotent(reason);
  }

  lemma AdvanceKeepsInvariant(h: HandState, from: Phase, next: Phase, expected: nat)
    requires (from, next) in {(Dealing, Bidding), (Bidding, Playing), (Playing, Settling), (Settling, Completed)}
    requires Invariant(h) && Advance(h, from, next, expected).Done?
    ensures Invariant(Advance(h, from, next, expected).state)
  {
  }

  lemma LifecycleKeepsInvariant(h: HandState, commitOf: CommitFunction, a: HandAction)
    requires !IsContribution(a) && Invariant(h) && Apply(h, commitOf, a).Done?
    ensures Invariant(Apply(h, commitOf, a).state)
  {
    match a
    case LockAction(value, expected) => LockKeepsInvariant(h, value, expected);
    case CancelAction(reason, expected) => TerminateKeepsInvariant(h, Cancelled, reason, expected);
    case AbortAction(reason, expected) => TerminateKeepsInvariant(h, Aborted, reason, expected);
    case ExpireAction(reason, expected) => TerminateKeepsInvariant(h, Expired, reason, expected);
    case DealtAction(expected) => AdvanceKeepsInvariant(h, Dealing, Bidding, expected);
    case PlayAction(expected) => AdvanceKeepsInvariant(h, Bidding, Playing, expected);
    case SettleAction(expected) => AdvanceKeepsInvariant(h, Playing, Settling, expected);
    case CompleteAction(expected) => AdvanceKeepsInvariant(h, Settling, Completed, expected);
  }

  lemma ContributionsKeepInvariant(h: HandState, commitOf: CommitFunction, a: HandAction)
    requires NeverZero(commitOf) && IsContribution(a) && Invariant(h) && Apply(h, commitOf, a).Done?
    ensures Invariant(Apply(h, commitOf, a).state)
  {
    var h', i := Apply(h, commitOf, a).state, ResolveSeat(h, a.actor).value - 1;
    match a
    case CommitAction(actor, commitment, expected) =>
      CommitIsStep(h, actor, commitment, expected);
      CommitKeepsInvariant(h, h', i, commitment);
    case RevealAction(actor, digest, ref, expected) =>
      RevealIsStep(h, commitOf, actor, digest, ref, expected);
      RevealKeepsInvariant(h, h', commitOf, i, digest, Trim(ref));
    case CustodiedAction(actor, digest, ref, expected) =>
      CustodiedIsStep(h, commitOf, actor, digest, ref, expected);
      CustodiedKeepsInvariant(h, h', commitOf, i, digest, Trim(ref));
  }

  lemma TransitionsKeepInvariant(h: HandState, commitOf: CommitFunction, a: HandAction)
    requires NeverZero(commitOf) && Invariant(h) && Apply(h, commitOf, a).Done?
    ensures Invariant(Apply(h, commitOf, a).state)
  {
    if IsContribution(a) {
      ContributionsKeepInvariant(h, commitOf, a);
    } else {
      LifecycleKeepsInvariant(h, commitOf, a);
    }
  }

  lemma TransitionsKeepSoundness(h: HandState, commitOf: CommitFunction, a: HandAction)
    requires NeverZero(commitOf) && Sound(h) && Apply(h, commitOf, a).Done?
    ensures Sound(Apply(h, commitOf, a).state)
  {
    SoundIffInvariant(h);
    TransitionsKeepInvariant(h, commitOf, a);
    SoundIffInvariant(Apply(h, commitOf, a).state);
  }

  /** What Record and ChangePhase append is numbered on. */
  ghost predicate WellNumbered(h: HandState, t: Transition<HandState>) {
    t.Done? ==>
      && Numbered(t.events, AggregateHand, h.id, h.version) && t.state.id == h.id
      && t.state.version == h.version + |t.events| && |t.events| > 0
  }

  /** The events of a transition take the versions from the old one to the new one without a gap. */
  lemma EventsAreNumbered(h: HandState, commitOf: CommitFunction, a: HandAction)
    requires Apply(h, commitOf, a).Done?
    ensures WellNumbered(h, Apply(h, commitOf, a))
  {
    match a
    case CommitAction(actor, commitment, expected) => CommitIsNumbered(h, actor, commitment, expected);
    case RevealAction(actor, digest, ref, expected) => RevealIsNumbered(h, commitOf, actor, digest, ref, expected);
    case CustodiedAction(actor, digest, ref, expected) => CustodiedIsNumbered(h, commitOf, actor, digest, ref,
        expected);
    case _ => LifecycleIsNumbered(h, commitOf, a);
  }

  lemma CommitIsNumbered(h: HandState, actor: Text, commitment: Block, expected: nat)
    ensures WellNumbered(h, SubmitCommit(h, actor, commitment, expected))
  {
  }

  lemma RevealIsNumbered(h: HandState, commitOf: CommitFunction, actor: Text, digest: Block, ref: Text, expected: nat)
    ensures WellNumbered(h, SubmitReveal(h, commitOf, actor, digest, ref, expected))
  {
  }

  lemma CustodiedIsNumbered(h: HandState, commitOf: CommitFunction, actor: Text, digest: Block, ref: Text,
                            expected: nat)
    ensures WellNumbered(h, SubmitCustodied(h, commitOf, actor, digest, ref, expected))
  {
  }

  lemma LifecycleIsNumbered(h: HandState, commitOf: CommitFunction, a: HandAction)
    requires !IsContribution(a)
    ensures WellNumbered(h, Apply(h, commitOf, a))
  {
    match a
    case LockAction(value, expected) =>
    case CancelAction(reason, expected) =>
    case AbortAction(reason, expected) =>
    case ExpireAction(reason, expected) =>
    case DealtAction(expected) =>
    case PlayAction(expected) =>
    case SettleAction(expected) =>
    case CompleteAction(expected) =>
  }

  // ------------------------------------------------------------------ commit before beacon

  predicate InFairness(p: Phase) {
    p == Committing || p == Revealing
  }

  /** Every revealed digest is the one its commitment was computed from, and a beacon is only known to a
      hand whose three seats have revealed. */
  ghost predicate Honest(h: HandState, commitOf: CommitFunction) {
    && (forall i :: 0 <= i < 3 && h.contributions[i].revealed ==>
          h.contributions[i].commitment == commitOf(h.id, i + 1, h.contributions[i].digest))
    && (h.beacon.Some? ==> forall i :: 0 <= i < 3 ==> h.contributions[i].revealed)
  }

  /** A commitment once set stays, a reveal once made stays. */
  predicate Extends(before: Contribution, after: Contribution) {
    && (before.commitment != ZeroBlock() ==> after.commitment == before.commitment)
    && (before.revealed ==> after == before)
  }

  /** What any later state of a hand has in common with an earlier one. */
  predicate Evolves(h: HandState, h': HandState) {
    && h'.mode == h.mode && h'.id == h.id && h'.roomId == h.roomId && h'.seats == h.seats && h'.plan == h.plan
    && h'.serverCommitment == h.serverCommitment && h'.revealKeyId == h.revealKeyId
    && h'.revealPublicKey == h.revealPublicKey && h'.revealKeyBoundAt == h.revealKeyBoundAt
    && Extends(h.contributions[0], h'.contributions[0])
    && Extends(h.contributions[1], h'.contributions[1])
    && Extends(h.contributions[2], h'.contributions[2])
    && (!InFairness(h.phase) ==> h'.contributions == h.contributions && !InFairness(h'.phase))
    && (h.beacon.Some? ==> h'.beacon == h.beacon)
    && (Terminal(h.phase) ==> h' == h)
    && h.version <= h'.version
  }

  lemma EvolvesIsTransitive(a: HandState, b: HandState, c: HandState)
    requires Evolves(a, b) && Evolves(b, c)
    ensures Evolves(a, c)
  {
  }

  lemma ContributionEvolves(h: HandState, h': HandState, i: nat, x: Contribution)
    requires i < 3 && InFairness(h.phase) && Extends(h.contributions[i], x) && h.beacon.None?
    requires h' == h.(contributions := h.contributions[i := x], phase := h'.phase, version := h'.version)
    requires h'.version >= h.version
    ensures Evolves(h, h')
  {
    if i == 0 {
    } else if i == 1 {
    } else {
    }
  }

  /** Actions other than contributions touch the phase, the beacon, the reason and the version only. */
  ghost predicate LifecycleStep(h: HandState, h': HandState) {
    && h' == h.(phase := h'.phase, beacon := h'.beacon, reason := h'.reason, version := h'.version)
    && h'.version > h.version && !Terminal(h.phase) && !InFairness(h'.phase)
    && (h'.beacon == h.beacon || h.phase == WaitingBeacon)
  }

  lemma LifecycleIsStep(h: HandState, commitOf: CommitFunction, a: HandAction)
    requires !IsContribution(a) && Apply(h, commitOf, a).Done?
    ensures LifecycleStep(h, Apply(h, commitOf, a).state)
  {
    match a
    case LockAction(value, expected) =>
    case CancelAction(reason, expected) =>
    case AbortAction(reason, expected) =>
    case ExpireAction(reason, expected) =>
    case DealtAction(expected) =>
    case PlayAction(expected) =>
    case SettleAction(expected) =>
    case CompleteAction(expected) =>
  }

  lemma LifecycleEvolves(h: HandState, h': HandState)
    requires Invariant(h) && LifecycleStep(h, h')
    ensures Evolves(h, h')
  {
  }

  lemma CommitEvolves(h: HandState, h': HandState, i: nat, commitment: Block)
    requires Invariant(h) && CommitStep(h, h', i, commitment)
    ensures Evolves(h, h')
  {
    UnrevealedWhileCommitting(h);
    ContributionEvolves(h, h', i, h.contributions[i].(commitment := commitment));
  }

  lemma RevealEvolves(h: HandState, h': HandState, commitOf: CommitFunction, i: nat, digest: Block, ref: Text)
    requires Invariant(h) && RevealStep(h, h', commitOf, i, digest, ref)
    ensures Evolves(h, h')
  {
    ContributionEvolves(h, h', i, Contribution(h.contributions[i].commitment, true, digest, ref));
  }

  lemma CustodiedEvolves(h: HandState, h': HandState, commitOf: CommitFunction, i: nat, digest: Block, ref: Text)
    requires Invariant(h) && CustodiedStep(h, h', commitOf, i, digest, ref)
    ensures Evolves(h, h')
  {
    ContributionEvolves(h, h', i, Contribution(commitOf(h.id, i + 1, digest), true, digest, ref));
  }

  lemma ContributionsEvolve(h: HandState, commitOf: CommitFunction, a: HandAction)
    requires IsContribution(a) && Invariant(h) && Apply(h, commitOf, a).Done?
    ensures Evolves(h, Apply(h, commitOf, a).state)
  {
    var h', i := Apply(h, commitOf, a).state, ResolveSeat(h, a.actor).value - 1;
    match a
    case CommitAction(actor, commitment, expected) =>
      CommitIsStep(h, actor, commitment, expected);
      CommitEvolves(h, h', i, commitment);
    case RevealAction(actor, digest, ref, expected) =>
      RevealIsStep(h, commitOf, actor, digest, ref, expected);
      RevealEvolves(h, h', commitOf, i, digest, Trim(ref));
    case CustodiedAction(actor, digest, ref, expected) =>
      CustodiedIsStep(h, commitOf, actor, digest, ref, expected);
      CustodiedEvolves(h, h', commitOf, i, digest, Trim(ref));
  }

  lemma TransitionsEvolve(h: HandState, commitOf: CommitFunction, a: HandAction)
    requires Invariant(h) && Apply(h, commitOf, a).Done?
    ensures Evolves(h, Apply(h, commitOf, a).state)
  {
    if IsContribution(a) {
      ContributionsEvolve(h, commitOf, a);
    } else {
      LifecycleIsStep(h, commitOf, a);
      LifecycleEvolves(h, Apply(h, commitOf, a).state);
    }
  }

  lemma ContributionKeepsHonesty(h: HandState, h': HandState, commitOf: CommitFunction, i: nat)
    requires i < 3 && Honest(h, commitOf) && h.beacon.None? && h'.beacon.None? && h'.id == h.id
    requires h'.contributions == h.contributions[i := h'.contributions[i]]
    requires h'.contributions[i].revealed
             ==> h'.contributions[i].commitment == commitOf(h.id, i + 1, h'.contributions[i].digest)
    ensures Honest(h', commitOf)
  {
  }

  lemma CommitKeepsHonesty(h: HandState, h': HandState, commitOf: CommitFunction, i: nat, commitment: Block)
    requires Invariant(h) && Honest(h, commitOf) && CommitStep(h, h', i, commitment)
    ensures Honest(h', commitOf)
  {
    UnrevealedWhileCommitting(h);
    ContributionKeepsHonesty(h, h', commitOf, i);
  }

  lemma RevealKeepsHonesty(h: HandState, h': HandState, commitOf: CommitFunction, i: nat, digest: Block, ref: Text)
    requires Invariant(h) && Honest(h, commitOf) && RevealStep(h, h', commitOf, i, digest, ref)
    ensures Honest(h', commitOf)
  {
    ContributionKeepsHonesty(h, h', commitOf, i);
  }

  lemma CustodiedKeepsHonesty(h: HandState, h': HandState, commitOf: CommitFunction, i: nat, digest: Block, ref: Text)
    requires Invariant(h) && Honest(h, commitOf) && CustodiedStep(h, h', commitOf, i, digest, ref)
    ensures Honest(h', commitOf)
  {
    ContributionKeepsHonesty(h, h', commitOf, i);
  }

  lemma LifecycleKeepsHonesty(h: HandState, h': HandState, commitOf: CommitFunction)
    requires Invariant(h) && Honest(h, commitOf) && LifecycleStep(h, h')
    ensures Honest(h', commitOf)
  {
    if h.phase == WaitingBeacon {
      AllRevealed(h);
    }
  }

  lemma ContributionsKeepHonesty(h: HandState, commitOf: CommitFunction, a: HandAction)
    requires IsContribution(a) && Invariant(h) && Honest(h, commitOf) && Apply(h, commitOf, a).Done?
    ensures Honest(Apply(h, commitOf, a).state, commitOf)
  {
    var h', i := Apply(h, commitOf, a).state, ResolveSeat(h, a.actor).value - 1;
    match a
    case CommitAction(actor, commitment, expected) =>
      CommitIsStep(h, actor, commitment, expected);
      CommitKeepsHonesty(h, h', commitOf, i, commitment);
    case RevealAction(actor, digest, ref, expected) =>
      RevealIsStep(h, commitOf, actor, digest, ref, expected);
      RevealKeepsHonesty(h, h', commitOf, i, digest, Trim(ref));
    case CustodiedAction(actor, digest, ref, expected) =>
      CustodiedIsStep(h, commitOf, actor, digest, ref, expected);
      CustodiedKeepsHonesty(h, h', commitOf, i, digest, Trim(ref));
  }

  lemma TransitionsKeepHonesty(h: HandState, commitOf: CommitFunction, a: HandAction)
    requires Invariant(h) && Honest(h, commitOf) && Apply(h, commitOf, a).Done?
    ensures Honest(Apply(h, commitOf, a).state, commitOf)
  {
    if IsContribution(a) {
      ContributionsKeepHonesty(h, commitOf, a);
    } else {
      LifecycleIsStep(h, commitOf, a);
      LifecycleKeepsHonesty(h, Apply(h, commitOf, a).state, commitOf);
    }
  }

  lemma UnrevealedWhileCommitting(h: HandState)
    requires Invariant(h) && h.phase == Committing && h.mode != ClientCustodied
    ensures !h.contributions[0].revealed && !h.contributions[1].revealed && !h.contributions[2].revealed
  {
  }

  lemma AllRevealed(h: HandState)
    requires Invariant(h) && h.phase == WaitingBeacon
    ensures h.contributions[0].revealed && h.contributions[1].revealed && h.contributions[2].revealed
  {
  }

  // ------------------------------------------------------------------ whole runs

  /** An in-memory run; refused actions change nothing. */
  function Run(h: HandState, commitOf: CommitFunction, actions: seq<HandAction>): HandState {
    if actions == [] then h
    else
      var before := Run(h, commitOf, actions[..|actions| - 1]);
      Succeeded(Apply(before, commitOf, actions[|actions| - 1]), before)
  }

  /** The same run when the hand is saved after, and loaded before, every action. */
  function PersistedRun(t: HandSnapshot, commitOf: CommitFunction, actions: seq<HandAction>): Result<HandSnapshot> {
    if actions == [] then Ok(t)
    else
      match PersistedRun(t, commitOf, actions[..|actions| - 1])
      case Err(e) => Err(e)
      case Ok(stored) =>
        match Restore(stored)
        case Err(e) => Err(e)
        case Ok(h) => Ok(Snapshot(Succeeded(Apply(h, commitOf, actions[|actions| - 1]), h)))
  }

  lemma {:induction false} PersistenceIsTransparent(h: HandState, commitOf: CommitFunction, actions: seq<HandAction>)
    requires NeverZero(commitOf) && Sound(h)
    ensures Sound(Run(h, commitOf, actions))
    ensures PersistedRun(Snapshot(h), commitOf, actions) == Ok(Snapshot(Run(h, commitOf, actions)))
  {
    if actions != [] {
      var a := actions[|actions| - 1];
      PersistenceIsTransparent(h, commitOf, actions[..|actions| - 1]);
      var before := Run(h, commitOf, actions[..|actions| - 1]);
      if Apply(before, commitOf, a).Done? {
        TransitionsKeepSoundness(before, commitOf, a);
      }
    }
  }

  /** Over any run, in either mode: setup and commitments never change, reveals match commitments, and
      from WaitingBeacon on nothing contributed changes. */
  lemma {:induction false} CommitBeforeBeacon(h: HandState, commitOf: CommitFunction, actions: seq<HandAction>)
    requires NeverZero(commitOf) && Invariant(h) && Honest(h, commitOf)
    ensures var h' := Run(h, commitOf, actions); Invariant(h') && Honest(h', commitOf) && Evolves(h, h')
  {
    if actions != [] {
      var a := actions[|actions| - 1];
      CommitBeforeBeacon(h, commitOf, actions[..|actions| - 1]);
      var before := Run(h, commitOf, actions[..|actions| - 1]);
      if Apply(before, commitOf, a).Done? {
        TransitionsKeepInvariant(before, commitOf, a);
        TransitionsKeepHonesty(before, commitOf, a);
        TransitionsEvolve(before, commitOf, a);
        EvolvesIsTransitive(h, before, Apply(before, commitOf, a).state);
      }
    }
  }
}
