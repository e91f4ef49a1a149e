/** The hand aggregate as transitions on values: fairness contributions, the public beacon, the phases. */
module HandModel {
  import opened Bytes
  import opened Text
  import opened Domain

  datatype FairnessMode = CommitReveal | ClientCustodied | UnknownMode

  datatype Phase =
    | Committing | Revealing | WaitingBeacon | Dealing | Bidding | Playing | Settling
    | Completed | Cancelled | Aborted | Expired | UnknownPhase

  predicate Terminal(p: Phase) {
    p in {Completed, Cancelled, Aborted, Expired}
  }

  datatype HandSeat = HandSeat(seat: nat, account: Text)

  type ThreeHandSeats = s: seq<HandSeat> | |s| == 3 witness [HandSeat(1, []), HandSeat(2, []), HandSeat(3, [])]

  datatype Contribution = Contribution(commitment: Block, revealed: bool, digest: Block, recordRef: Text)

  const NOTHING := Contribution(ZeroBlock(), false, ZeroBlock(), [])

  type ThreeContributions = s: seq<Contribution> | |s| == 3
    witness [Contribution(ZeroBlock(), false, ZeroBlock(), []), Contribution(ZeroBlock(), false, ZeroBlock(), []),
             Contribution(ZeroBlock(), false, ZeroBlock(), [])]

  datatype BeaconPlan = BeaconPlan(provider: Text, round: Text)

  datatype BeaconValue = BeaconValue(provider: Text, round: Text, digest: Block, proofRef: Text)

  /** Time instants are nanoseconds since the zero time. */
  datatype HandState = HandState(
    mode: FairnessMode, id: Text, roomId: Text, phase: Phase, seats: ThreeHandSeats,
    serverCommitment: Block, revealKeyId: Text, revealPublicKey: Block, revealKeyBoundAt: nat,
    plan: BeaconPlan, beacon: Option<BeaconValue>, contributions: ThreeContributions, reason: Text, version: nat)

  /** ComputeClientCommitment, an arbitrary hash of hand, seat and contribution digest. */
  type CommitFunction = (Text, nat, Block) -> Block

  /** No contribution hashes to 32 zero bytes. */
  ghost predicate NeverZero(commitOf: CommitFunction) {
    forall id, seat, digest :: commitOf(id, seat, digest) != ZeroBlock()
  }

  // ------------------------------------------------------------------ construction

  predicate ValidHandSeats(seats: ThreeHandSeats) {
    && (forall i :: 0 <= i < 3 ==> 1 <= seats[i].seat <= 3 && ValidIdentifier(seats[i].account))
    && (forall i, j :: 0 <= i < j < 3 ==> seats[i].seat != seats[j].seat && seats[i].account != seats[j].account)
  }

  predicate ValidPlan(plan: BeaconPlan) {
    ValidIdentifier(plan.provider) && ValidIdentifier(plan.round)
  }

  /** What a hand keeps from its creation on. */
  predicate ValidSetup(h: HandState) {
    && ValidIdentifier(h.id) && ValidIdentifier(h.roomId)
    && h.serverCommitment != ZeroBlock() && ValidIdentifier(h.revealKeyId)
    && h.revealPublicKey != ZeroBlock() && h.revealKeyBoundAt != 0
    && ValidPlan(h.plan) && ValidHandSeats(h.seats)
  }

  function Record(h: HandState, name: EventName, events: seq<Event>): Transition<HandState> {
    var h' := h.(version := h.version + 1);
    Done(h', events + [Event(AggregateHand, h.id, name, h'.version)])
  }

  /** NewHand, or NewClientCustodiedHand when `mode` is ClientCustodied. */
  function NewHand(mode: FairnessMode, id: Text, roomId: Text, seats: ThreeHandSeats, serverCommitment: Block,
                   revealKeyId: Text, plan: BeaconPlan, publicKey: Block, boundAt: nat): Transition<HandState>
  {
    var h := HandState(mode, id, roomId, Committing, seats, serverCommitment, revealKeyId, publicKey, boundAt,
                       plan, None, [NOTHING, NOTHING, NOTHING], [], 0);
    if ValidSetup(h) then Record(h, HandCreated, []) else Refused(InvalidArgument)
  }

  // ------------------------------------------------------------------ transitions

  function CommitCount(c: ThreeContributions): (n: nat)
    ensures n <= 3
  {
    (if c[0].commitment != ZeroBlock() then 1 else 0)
    + (if c[1].commitment != ZeroBlock() then 1 else 0)
    + (if c[2].commitment != ZeroBlock() then 1 else 0)
  }

  function RevealCount(c: ThreeContributions): (n: nat)
    ensures n <= 3
  {
    (if c[0].revealed then 1 else 0) + (if c[1].revealed then 1 else 0) + (if c[2].revealed then 1 else 0)
  }

  function Prepare(h: HandState, expected: nat, required: Phase): Option<Error> {
    if h.version != expected then Some(VersionConflict(expected, h.version))
    else if Terminal(h.phase) then Some(HandIsTerminal)
    else if h.phase != required then Some(WrongPhase)
    else None
  }

  function ResolveSeat(h: HandState, actor: Text): Result<nat> {
    if !ValidIdentifier(actor) then Err(InvalidArgument)
    else if h.seats[0].account == actor then Ok(h.seats[0].seat)
    else if h.seats[1].account == actor then Ok(h.seats[1].seat)
    else if h.seats[2].account == actor then Ok(h.seats[2].seat)
    else Err(NotSeated)
  }

  function ChangePhase(h: HandState, to: Phase, events: seq<Event>): Transition<HandState> {
    Record(h.(phase := to), PhaseChanged, events)
  }

  /** The transition so far, with a phase change behind it when `complete`. */
  function ThenPhase(t: Transition<HandState>, complete: bool, to: Phase): Transition<HandState> {
    if t.Done? && complete then ChangePhase(t.state, to, t.events) else t
  }

  function SubmitCommit(h: HandState, actor: Text, commitment: Block, expected: nat): Transition<HandState> {
    if h.mode == ClientCustodied then Refused(WrongPhase)
    else if Prepare(h, expected, Committing).Some? then Refused(Prepare(h, expected, Committing).value)
    else
      match ResolveSeat(h, actor)
      case Err(e) => Refused(e)
      case Ok(seat) =>
        if commitment == ZeroBlock() || !(1 <= seat <= 3) then Refused(InvalidArgument)
        else if h.contributions[seat - 1].commitment != ZeroBlock() then Refused(DuplicateContribution)
        else
          var contributions := h.contributions[seat - 1 := h.contributions[seat - 1].(commitment := commitment)];
          ThenPhase(Record(h.(contributions := contributions), CommitAccepted, []), CommitCount(contributions) == 3,
                    Revealing)
  }

  function SubmitReveal(h: HandState, commitOf: CommitFunction, actor: Text, digest: Block, recordRef: Text,
                        expected: nat)
    : Transition<HandState>
  {
    if h.mode == ClientCustodied then Refused(WrongPhase)
    else if Prepare(h, expected, Revealing).Some? then Refused(Prepare(h, expected, Revealing).value)
    else
      match ResolveSeat(h, actor)
      case Err(e) => Refused(e)
      case Ok(seat) =>
        if digest == ZeroBlock() || Blank(recordRef) || |Trim(recordRef)| > 256 || !(1 <= seat <= 3)
            then Refused(InvalidArgument)
        else
          var current := h.contributions[seat - 1];
          if current.commitment == ZeroBlock() then Refused(WrongPhase)
          else if current.revealed then Refused(DuplicateContribution)
          else if commitOf(h.id, seat, digest) != current.commitment then Refused(CommitmentMismatch)
          else
            var contributions := h.contributions[seat - 1 := Contribution(current.commitment, true, digest,
                Trim(recordRef))];
            ThenPhase(Record(h.(contributions := contributions), RevealAccepted, []), RevealCount(contributions) == 3,
                      WaitingBeacon)
  }

  function SubmitCustodied(h: HandState, commitOf: CommitFunction, actor: Text, digest: Block, recordRef: Text,
                           expected: nat)
    : Transition<HandState>
  {
    if h.mode != ClientCustodied then Refused(WrongPhase)
    else if Prepare(h, expected, Committing).Some? then Refused(Prepare(h, expected, Committing).value)
    else
      match ResolveSeat(h, actor)
      case Err(e) => Refused(e)
      case Ok(seat) =>
        if Blank(recordRef) || |Trim(recordRef)| > 256 || digest == ZeroBlock() || !(1 <= seat <= 3)
            then Refused(InvalidArgument)
        else
          var current := h.contributions[seat - 1];
          if current.commitment != ZeroBlock() || current.revealed then Refused(DuplicateContribution)
          else
            var contributions := h.contributions[seat - 1 := Contribution(commitOf(h.id, seat, digest), true, digest,
                Trim(recordRef))];
            var committed := Record(h.(contributions := contributions), CommitAccepted, []);
            ThenPhase(Record(committed.state, RevealAccepted, committed.events), RevealCount(contributions) == 3,
                      WaitingBeacon)
  }

  function LockPublicBeacon(h: HandState, value: BeaconValue, expected: nat): Transition<HandState> {
    if Prepare(h, expected, WaitingBeacon).Some? then Refused(Prepare(h, expected, WaitingBeacon).value)
    else if value.provider != h.plan.provider || value.round != h.plan.round then Refused(BeaconMismatch)
    else if value.digest == ZeroBlock() || Blank(value.proofRef) || |Trim(value.proofRef)| > 512
        then Refused(InvalidArgument)
    else
      var locked := Record(h.(beacon := Some(value.(proofRef := Trim(value.proofRef)))), BeaconLocked, []);
      ChangePhase(locked.state, Dealing, locked.events)
  }

  /** MarkDealt, StartPlaying, StartSettling and Complete. */
  function Advance(h: HandState, from: Phase, to: Phase, expected: nat): Transition<HandState> {
    if Prepare(h, expected, from).Some? then Refused(Prepare(h, expected, from).value) else ChangePhase(h, to, [])
  }

  function Terminate(h: HandState, terminal: Phase, reason: Text, expected: nat): Transition<HandState> {
    if h.version != expected then Refused(VersionConflict(expected, h.version))
    else if Terminal(h.phase) then Refused(HandIsTerminal)
    else if Blank(reason) || |Trim(reason)| > 256 then Refused(InvalidArgument)
    else
      var ended := Record(h.(reason := Trim(reason), phase := terminal), HandTerminated, []);
      Record(ended.state, PhaseChanged, ended.events)
  }

  function Cancel(h: HandState, reason: Text, expected: nat): Transition<HandState> {
    if h.phase in {Dealing, Bidding, Playing, Settling} then Refused(WrongPhase)
    else Terminate(h, Cancelled, reason, expected)
  }

  datatype HandAction =
    | CommitAction(actor: Text, commitment: Block, expected: nat)
    | RevealAction(actor: Text, digest: Block, recordRef: Text, expected: nat)
    | CustodiedAction(actor: Text, digest: Block, recordRef: Text, expected: nat)
    | LockAction(value: BeaconValue, expected: nat)
    | DealtAction(expected: nat)
    | PlayAction(expected: nat)
    | SettleAction(expected: nat)
    | CompleteAction(expected: nat)
    | CancelAction(reason: Text, expected: nat)
    | AbortAction(reason: Text, expected: nat)
    | ExpireAction(reason: Text, expected: nat)

  predicate IsContribution(a: HandAction) {
    a.CommitAction? || a.RevealAction? || a.CustodiedAction?
  }

  function Apply(h: HandState, commitOf: CommitFunction, a: HandAction): Transition<HandState> {
    match a
    case CommitAction(actor, commitment, expected) => SubmitCommit(h, actor, commitment, expected)
    case RevealAction(actor, digest, ref, expected) => SubmitReveal(h, commitOf, actor, digest, ref, expected)
    case CustodiedAction(actor, digest, ref, expected) => SubmitCustodied(h, commitOf, actor, digest, ref, expected)
    case LockAction(value, expected) => LockPublicBeacon(h, value, expected)
    case DealtAction(expected) => Advance(h, Dealing, Bidding, expected)
    case PlayAction(expected) => Advance(h, Bidding, Playing, expected)
    case SettleAction(expected) => Advance(h, Playing, Settling, expected)
    case CompleteAction(expected) => Advance(h, Settling, Completed, expected)
    case CancelAction(reason, expected) => Cancel(h, reason, expected)
    case AbortAction(reason, expected) => Terminate(h, Aborted, reason, expected)
    case ExpireAction(reason, expected) => Terminate(h, Expired, reason, expected)
  }

  // ------------------------------------------------------------------ snapshot and restore

  datatype ContributionSnapshot = ContributionSnapshot(seat: nat, committed: bool, value: Contribution)

  type ThreeContributionSnapshots = s: seq<ContributionSnapshot> | |s| == 3
    witness [ContributionSnapshot(1, false, NOTHING), ContributionSnapshot(2, false, NOTHING),
             ContributionSnapshot(3, false, NOTHING)]

  /** The stored form differs from the aggregate in its contributions only. */
  datatype HandSnapshot = HandSnapshot(body: HandState, contributions: ThreeContributionSnapshots)

  function Stored(c: Contribution, seat: nat): ContributionSnapshot {
    ContributionSnapshot(seat, c.commitment != ZeroBlock(), c)
  }

  function Snapshot(h: HandState): HandSnapshot {
    HandSnapshot(h.(contributions := [NOTHING, NOTHING, NOTHING]),
                 [Stored(h.contributions[0], 1), Stored(h.contributions[1], 2), Stored(h.contributions[2], 3)])
  }

  predicate BeaconFine(h: HandState) {
    h.beacon.Some? ==>
      && h.beacon.value.provider == h.plan.provider && h.beacon.value.round == h.plan.round
      && h.beacon.value.digest != ZeroBlock() && !Blank(h.beacon.value.proofRef) && |h.beacon.value.proofRef| <= 512
  }

  predicate ContributionFine(c: Contribution) {
    if c.revealed then
      c.commitment != ZeroBlock() && c.digest != ZeroBlock() && !Blank(c.recordRef) && |c.recordRef| <= 256
    else c.digest == ZeroBlock() && c.recordRef == []
  }

  predicate PhaseConsistent(h: HandState) {
    var committed, revealed := CommitCount(h.contributions), RevealCount(h.contributions);
    && revealed <= committed
    && match h.phase
       case Committing =>
         && h.reason == [] && h.beacon.None? && committed < 3
         && revealed == if h.mode == ClientCustodied then committed else 0
       case Revealing => h.reason == [] && h.beacon.None? && committed == 3 && revealed < 3
       case WaitingBeacon => h.reason == [] && h.beacon.None? && committed == 3 && revealed == 3
       case Dealing => h.reason == [] && h.beacon.Some? && committed == 3 && revealed == 3
       case Bidding => h.reason == [] && h.beacon.Some? && committed == 3 && revealed == 3
       case Playing => h.reason == [] && h.beacon.Some? && committed == 3 && revealed == 3
       case Settling => h.reason == [] && h.beacon.Some? && committed == 3 && revealed == 3
       case Completed => h.reason == [] && h.beacon.Some? && committed == 3 && revealed == 3
       case Cancelled => !Blank(h.reason) && |h.reason| <= 256
       case Aborted => !Blank(h.reason) && |h.reason| <= 256
       case Expired => !Blank(h.reason) && |h.reason| <= 256
       case UnknownPhase => false
  }

  function Rebuilt(t: HandSnapshot): HandState {
    t.body.(contributions := [t.contributions[0].value, t.contributions[1].value, t.contributions[2].value])
  }

  predicate StoredFine(t: HandSnapshot, i: nat)
    requires i < 3
  {
    && t.contributions[i].seat == i + 1
    && t.contributions[i].committed == (t.contributions[i].value.commitment != ZeroBlock())
    && ContributionFine(t.contributions[i].value)
  }

  /** Which snapshots RestoreHand accepts. */
  predicate Restorable(t: HandSnapshot) {
    && t.body.mode != UnknownMode && ValidSetup(t.body) && t.body.version > 0
    && BeaconFine(t.body)
    && StoredFine(t, 0) && StoredFine(t, 1) && StoredFine(t, 2)
    && PhaseConsistent(Rebuilt(t))
  }

  function Restore(t: HandSnapshot): Result<HandState> {
    if Restorable(t) then Ok(Rebuilt(t)) else Err(InvalidArgument)
  }

  predicate Sound(h: HandState) {
    Restore(Snapshot(h)) == Ok(h)
  }

  /** What makes a hand sound, said of the hand itself. */
  predicate Invariant(h: HandState) {
    && h.mode != UnknownMode && ValidSetup(h) && h.version > 0
    && BeaconFine(h) && ContributionsFine(h.contributions) && PhaseConsistent(h)
  }

  predicate ContributionsFine(c: ThreeContributions) {
    ContributionFine(c[0]) && ContributionFine(c[1]) && ContributionFine(c[2])
  }

  lemma SoundIffInvariant(h: HandState)
    ensures Sound(h) <==> Invariant(h)
  {
    var t := Snapshot(h);
    assert Rebuilt(t).contributions == h.contributions;
    assert Rebuilt(t) == h;
    assert ValidSetup(t.body) <==> ValidSetup(h);
    assert BeaconFine(t.body) <==> BeaconFine(h);
  }
}
