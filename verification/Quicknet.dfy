/** The public beacon's publication time as the deadline of every contribution. */
module Quicknet {
  import opened Bytes
  import opened Text
  import opened Domain
  import opened HandModel
  import opened HandLemmas

  const QUICKNET := Ascii("drand-quicknet")
  const GENESIS_TIME := 1692803367
  const ROUND_SECONDS := 3
  const MAX_ROUND := 0x10_0000_0000_0000
  const NANOS := 1_000_000_000

  /** strconv.FormatUint(n, 10). */
  function Format(n: nat): (s: Text)
    ensures s != []
    decreases n
  {
    if n < 10 then [(48 + n) as byte] else Format(n / 10) + [(48 + n % 10) as byte]
  }

  predicate IsDigit(b: byte) {
    48 <= b <= 57
  }

  /** strconv.ParseUint(s, 10, 64): digits only, at least one, below 2^64. */
  function ParseDigits(s: Text): (r: Option<nat>) {
    if s == [] then Some(0)
    else
      var d := s[|s| - 1];
      match ParseDigits(s[..|s| - 1])
      case None => None
      case Some(n) => if IsDigit(d) then Some(n * 10 + (d as int - 48)) else None
  }

  function ParseUint(s: Text): Option<nat> {
    if s == [] then None
    else match ParseDigits(s)
      case None => None
      case Some(n) => if n < TWO_POW_64 then Some(n) else None
  }

  lemma {:induction false} ParseUndoesFormat(n: nat)
    ensures ParseDigits(Format(n)) == Some(n)
    decreases n
  {
    var s := Format(n);
    if n < 10 {
      assert s[..|s| - 1] == [];
    } else {
      ParseUndoesFormat(n / 10);
      assert s[..|s| - 1] == Format(n / 10);
    }
  }

  /** QuicknetRoundPublication: the instant of a committed round, in nanoseconds of Unix time. */
  function Publication(plan: BeaconPlan): Result<int> {
    if plan.provider != QUICKNET then Err(BeaconMismatch)
    else
      match ParseUint(plan.round)
      case None => Err(BeaconMismatch)
      case Some(round) =>
        if round == 0 || round > MAX_ROUND || Format(round) != plan.round then Err(BeaconMismatch)
        else Ok((GENESIS_TIME + (round - 1) * ROUND_SECONDS) * NANOS)
  }

  ghost predicate CanonicalRound(s: Text) {
    exists n :: 1 <= n <= MAX_ROUND && s == Format(n)
  }

  /** The accepted rounds are the decimal texts of 1 to 2^52 and nothing else: no sign, no leading zero. */
  lemma PublicationDefined(plan: BeaconPlan)
    ensures Publication(plan).Ok? <==> plan.provider == QUICKNET && CanonicalRound(plan.round)
  {
    if plan.provider == QUICKNET && CanonicalRound(plan.round) {
      var n :| 1 <= n <= MAX_ROUND && plan.round == Format(n);
      ParseUndoesFormat(n);
    }
  }

  predicate FitsInt64(x: int) {
    -0x8000_0000_0000_0000 <= x < 0x8000_0000_0000_0000
  }

  /** No step of the round arithmetic overflows, and publications are in the order of their rounds. */
  lemma {:induction false} RoundArithmetic(n: nat, m: nat)
    requires 1 <= n < m <= MAX_ROUND
    ensures FitsInt64(m - 1) && FitsInt64((m - 1) * ROUND_SECONDS) && FitsInt64(GENESIS_TIME + (m - 1) * ROUND_SECONDS)
    ensures var p, q := Publication(BeaconPlan(QUICKNET, Format(n))), Publication(BeaconPlan(QUICKNET, Format(m)));
            p.Ok? && q.Ok? && q.value - p.value == (m - n) * ROUND_SECONDS * NANOS && p.value < q.value
  {
    ParseUndoesFormat(n);
    ParseUndoesFormat(m);
  }

  /** checkContributionDeadline. */
  function CheckDeadline(plan: BeaconPlan, now: int): Option<Error> {
    if plan.provider != QUICKNET then None
    else
      match Publication(plan)
      case Err(e) => Some(e)
      case Ok(published) => if now >= published then Some(BeaconMismatch) else None
  }

  /** The auto-dealer's condition for aborting a hand that is still in its fairness phases. */
  predicate DealerMayAbort(plan: BeaconPlan, now: int) {
    plan.provider == QUICKNET && Publication(plan).Ok? && now >= Publication(plan).value
  }

  /** At any instant exactly one of "a contribution is allowed" and "the dealer may abort" holds - unless a
      quicknet plan names a round that is not canonical, and then neither holds, for ever. */
  lemma ExactlyOneSide(plan: BeaconPlan, now: int)
    ensures !(CheckDeadline(plan, now).None? && DealerMayAbort(plan, now))
    ensures (CheckDeadline(plan, now).None? || DealerMayAbort(plan, now))
            <==> (plan.provider != QUICKNET || CanonicalRound(plan.round))
  {
    PublicationDefined(plan);
  }

  /** Round "01" parses but is not canonical: such a hand can neither be contributed to nor aborted. */
  lemma LeadingZeroIsStuck(now: int)
    ensures var plan := BeaconPlan(QUICKNET, [48, 49]);
            CheckDeadline(plan, now).Some? && !DealerMayAbort(plan, now)
  {
    assert ParseDigits([48, 49][..1][..0]) == Some(0);
    assert ParseDigits([48, 49][..1]) == Some(0);
    assert ParseDigits([48, 49]) == Some(1);
    assert |Format(1)| == 1;
  }

  // ------------------------------------------------------------------ timed runs

  /** A hand and, for each seat, when its latest contribution was accepted. */
  datatype TimedHand = TimedHand(hand: HandState, at: seq<Option<int>>)

  /** Contributions are checked against the deadline with the clock reading of their transaction. */
  function TimedApply(h: HandState, commitOf: CommitFunction, a: HandAction, now: int): Transition<HandState> {
    if IsContribution(a) && CheckDeadline(h.plan, now).Some? then Refused(CheckDeadline(h.plan, now).value)
    else Apply(h, commitOf, a)
  }

  function TimedStep(t: TimedHand, commitOf: CommitFunction, a: HandAction, now: int): TimedHand
    requires |t.at| == 3
  {
    match TimedApply(t.hand, commitOf, a, now)
    case Refused(_) => t
    case Done(h, _) =>
      TimedHand(h, seq(3, i requires 0 <= i < 3 => if h.contributions[i] != t.hand.contributions[i] then Some(now)
                       else t.at[i]))
  }

  function TimedRun(h: HandState, commitOf: CommitFunction, steps: seq<(HandAction, int)>): (t: TimedHand)
    ensures |t.at| == 3
  {
    if steps == [] then TimedHand(h, [None, None, None])
    else
      var (a, now) := steps[|steps| - 1];
      TimedStep(TimedRun(h, commitOf, steps[..|steps| - 1]), commitOf, a, now)
  }

  /** Only a contribution accepted at `now`, before publication, changes what a seat has contributed. */
  lemma ContributionsChangeInTime(h: HandState, commitOf: CommitFunction, a: HandAction, now: int)
    requires NeverZero(commitOf) && Invariant(h) && TimedApply(h, commitOf, a, now).Done?
    ensures var h' := TimedApply(h, commitOf, a, now).state;
            Invariant(h') && h'.plan == h.plan
                && (h'.contributions != h.contributions ==> CheckDeadline(h.plan, now).None?)
  {
    TransitionsKeepInvariant(h, commitOf, a);
    TransitionsEvolve(h, commitOf, a);
    if !IsContribution(a) {
      LifecycleIsStep(h, commitOf, a);
    }
  }

  /** Whatever differs from the start was contributed at a known time, before publication. */
  ghost predicate InTime(h: HandState, t: TimedHand) {
    && |t.at| == 3 && Invariant(t.hand) && t.hand.plan == h.plan
    && forall i :: 0 <= i < 3 ==>
         && (t.hand.contributions[i] != h.contributions[i] ==> t.at[i].Some?)
         && (t.at[i].Some? ==> Publication(h.plan).Ok? && t.at[i].value < Publication(h.plan).value)
  }

  lemma StepStaysInTime(h: HandState, t: TimedHand, commitOf: CommitFunction, a: HandAction, now: int)
    requires NeverZero(commitOf) && h.plan.provider == QUICKNET && InTime(h, t)
    ensures InTime(h, TimedStep(t, commitOf, a, now))
  {
    var r := TimedApply(t.hand, commitOf, a, now);
    if r.Done? {
      ContributionsChangeInTime(t.hand, commitOf, a, now);
      var t' := TimedStep(t, commitOf, a, now);
      forall i | 0 <= i < 3
        ensures t'.hand.contributions[i] != h.contributions[i] ==> t'.at[i].Some?
        ensures t'.at[i].Some? ==> Publication(h.plan).Ok? && t'.at[i].value < Publication(h.plan).value
      {
        if r.state.contributions[i] == t.hand.contributions[i] {
          assert t'.at[i] == t.at[i];
        }
      }
    }
  }

  /** In a quicknet hand every contribution that is there at the end was accepted strictly before the
      round's publication. */
  lemma {:induction false} ContributionsPrecedePublication(h: HandState, commitOf: CommitFunction,
                                                           steps: seq<(HandAction, int)>)
    requires NeverZero(commitOf) && Invariant(h) && h.plan.provider == QUICKNET
    ensures InTime(h, TimedRun(h, commitOf, steps))
  {
    if steps != [] {
      var (a, now) := steps[|steps| - 1];
      ContributionsPrecedePublication(h, commitOf, steps[..|steps| - 1]);
      StepStaysInTime(h, TimedRun(h, commitOf, steps[..|steps| - 1]), commitOf, a, now);
    }
  }
}
