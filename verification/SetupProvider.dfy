/** The provider that sets up hands: which beacon round it locks in before any client commits. */
module SetupProvider {
  import opened Bytes
  import opened Text
  import opened Domain
  import opened HandModel
  import opened Quicknet

  const AUTO := Ascii("auto")
  const LEAD_SECONDS := 60

  /** The Unix second of the instant a minute ahead; instants are in nanoseconds. */
  function NextSecond(now: int): int {
    (now + LEAD_SECONDS * NANOS) / NANOS
  }

  /** DrandFutureRound's number. */
  function FutureNumber(now: int): (n: nat)
    requires NextSecond(now) >= GENESIS_TIME
  {
    (NextSecond(now) - GENESIS_TIME) / ROUND_SECONDS + 2
  }

  /** DrandFutureRound. */
  function FutureRound(now: int): Result<Text> {
    if NextSecond(now) < GENESIS_TIME then Err(Infrastructure) else Ok(Format(FutureNumber(now)))
  }

  /** The plan of PrepareHand: a quicknet round is never configured, it is locked in at preparation. */
  function PreparePlan(configured: BeaconPlan, now: int): Result<BeaconPlan> {
    if configured.provider != QUICKNET then Ok(configured)
    else if configured.round != AUTO then Err(InvalidArgument)
    else
      match FutureRound(now)
      case Err(e) => Err(e)
      case Ok(round) => Ok(configured.(round := round))
  }

  /** The clock is before the last round that is a quicknet round, some 428 million years after the first. */
  predicate BeforeLastRound(now: int) {
    NextSecond(now) < GENESIS_TIME + (MAX_ROUND - 1) * ROUND_SECONDS
  }

  lemma {:induction false} FormatIsInjective(n: nat, m: nat)
    requires Format(n) == Format(m)
    ensures n == m
  {
    ParseUndoesFormat(n);
    ParseUndoesFormat(m);
  }

  /** The round locked in is a canonical one exactly as long as there are such rounds. */
  lemma FutureRoundIsCanonicalIff(now: int)
    requires FutureRound(now).Ok?
    ensures CanonicalRound(FutureRound(now).value) <==> BeforeLastRound(now)
  {
    var n := FutureNumber(now);
    if CanonicalRound(FutureRound(now).value) {
      var m :| 1 <= m <= MAX_ROUND && Format(n) == Format(m);
      FormatIsInjective(n, m);
    }
  }

  /** It is published more than 60 and at most 63 seconds after the clock reading. */
  lemma FutureRoundIsAhead(now: int)
    requires FutureRound(now).Ok? && BeforeLastRound(now)
    ensures var p := Publication(BeaconPlan(QUICKNET, FutureRound(now).value));
            p.Ok? && now + LEAD_SECONDS * NANOS < p.value <= now + (LEAD_SECONDS + ROUND_SECONDS) * NANOS
  {
    ParseUndoesFormat(FutureNumber(now));
  }

  /** A plan about which contributors and the dealer never disagree. */
  ghost predicate Schedulable(plan: BeaconPlan) {
    plan.provider == QUICKNET ==> CanonicalRound(plan.round)
  }

  /** The plan comes from the provider, at some clock reading before the last round. */
  ghost predicate Provided(plan: BeaconPlan) {
    exists configured, now :: BeforeLastRound(now) && PreparePlan(configured, now) == Ok(plan)
  }

  /** Every plan of the provider has exactly one side at every instant; when it is prepared, and for the minute
      after, that side is the contributors'. */
  lemma ProvidedHasOneSide(configured: BeaconPlan, clock: int, now: int)
    requires BeforeLastRound(clock) && PreparePlan(configured, clock).Ok?
    ensures var plan := PreparePlan(configured, clock).value;
            && Schedulable(plan)
            && (CheckDeadline(plan, now).None? <==> !DealerMayAbort(plan, now))
            && (now <= clock + LEAD_SECONDS * NANOS ==> CheckDeadline(plan, now).None?)
  {
    if configured.provider == QUICKNET {
      FutureRoundIsCanonicalIff(clock);
      FutureRoundIsAhead(clock);
    }
    ExactlyOneSide(PreparePlan(configured, clock).value, now);
  }

  lemma ProvidedIsSchedulable(plan: BeaconPlan)
    requires Provided(plan)
    ensures Schedulable(plan)
  {
    var configured, now :| BeforeLastRound(now) && PreparePlan(configured, now) == Ok(plan);
    ProvidedHasOneSide(configured, now, now);
  }

  /** A provider that named round "01" would get its hand: the hand's own validation takes that plan wherever it
      takes another. Such a hand can be neither contributed to nor aborted by the dealer, ever. */
  lemma LeadingZeroCanBeCreated(mode: FairnessMode, id: Text, roomId: Text, seats: ThreeHandSeats,
                                serverCommitment: Block, revealKeyId: Text, plan: BeaconPlan, publicKey: Block,
                                boundAt: nat, now: int)
    requires NewHand(mode, id, roomId, seats, serverCommitment, revealKeyId, plan, publicKey, boundAt).Done?
    ensures var t := NewHand(mode, id, roomId, seats, serverCommitment, revealKeyId, BeaconPlan(QUICKNET, [48, 49]),
                             publicKey, boundAt);
            && t.Done? && t.state.phase == Committing
            && CheckDeadline(t.state.plan, now).Some? && !DealerMayAbort(t.state.plan, now) && !Provided(t.state.plan)
  {
    LeadingZeroPlan();
    LeadingZeroIsStuck(now);
    if Provided(BeaconPlan(QUICKNET, [48, 49])) {
      ProvidedIsSchedulable(BeaconPlan(QUICKNET, [48, 49]));
      ExactlyOneSide(BeaconPlan(QUICKNET, [48, 49]), now);
    }
  }

  lemma LeadingZeroPlan()
    ensures ValidPlan(BeaconPlan(QUICKNET, [48, 49]))
  {
    assert QUICKNET[0] == 100 && QUICKNET[|QUICKNET| - 1] == 116;
  }
}
