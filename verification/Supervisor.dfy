/** Timers of live hands. Callbacks, sweeps and terminations take the supervisor's lock for one section at a
    time and in any order; what they read outside it arrives as an argument. */
module Supervisor {
  import opened Bytes
  import opened Text
  import opened Store

  datatype TimerPhase = NoPhase | BiddingTimer | PlayingTimer

  datatype TerminationKind = AbortTermination | ExpireTermination

  datatype Termination = Termination(kind: TerminationKind, reason: Text, liveVersion: nat, command: Command)

  datatype Timer = Timer(actor: Text, phase: TimerPhase, deadline: int, liveVersion: nat, pending: Option<Termination>)

  /** The zero entry that reading a missing key gives. */
  const NO_TIMER := Timer([], NoPhase, 0, 0, None)

  /** The committed state of a live hand, as its public view shows it. */
  datatype Progress = Progress(version: nat, phase: TimerPhase)

  datatype Config = Config(biddingTimeout: nat, playingTimeout: nat)

  type Timers = map<Text, Timer>

  function TimerOf(timers: Timers, hand: Text): Timer {
    if hand in timers then timers[hand] else NO_TIMER
  }

  function TimeoutFor(config: Config, phase: TimerPhase): nat {
    if phase == PlayingTimer then config.playingTimeout else config.biddingTimeout
  }

  // ------------------------------------------------------------------ the sections

  /** TrackBidding: the first registration keeps its deadline. */
  function Armed(timers: Timers, hand: Text, actor: Text, progress: Option<Progress>, now: int,
                 config: Config): Timers {
    if hand in timers then timers
    else
      var playing := progress.Some? && progress.value.phase == PlayingTimer;
      timers[hand := Timer(actor, if playing then PlayingTimer else BiddingTimer,
                           now + (if playing then config.playingTimeout else config.biddingTimeout),
                           if progress.Some? then progress.value.version else 0, None)]
  }

  function Scheduled(timers: Timers, hand: Text, actor: Text, phase: TimerPhase, timeout: nat, version: nat,
                     now: int): Timers {
    var current := TimerOf(timers, hand);
    if current.pending.Some? || version <= current.liveVersion
        || (current.phase == PlayingTimer && phase == BiddingTimer) then timers
    else timers[hand := Timer(actor, phase, now + timeout, version, None)]
  }

  function ScheduledIfMissing(timers: Timers, hand: Text, actor: Text, desired: TimerPhase, timeout: nat, version: nat,
                              now: int): Timers {
    var current := TimerOf(timers, hand);
    if current.pending.Some?
       || (hand in timers && (current.liveVersion > version || current.phase == desired
                              || (current.phase == PlayingTimer && desired == BiddingTimer))) then timers
    else timers[hand := Timer(actor, desired, now + timeout, version, None)]
  }

  datatype RefreshAnswer = Changed | Unchanged | Regressed

  /** refreshCommittedProgress with the progress it has read. */
  function Refreshed(timers: Timers, hand: Text, original: Timer, progress: Progress, now: int,
                     config: Config): (Timers, RefreshAnswer) {
    var current := TimerOf(timers, hand);
    if hand !in timers || current.pending.Some? || current.liveVersion != original.liveVersion
       || current.phase != original.phase || current.deadline != original.deadline then (timers, Changed)
    else if progress.version <= current.liveVersion && progress.phase == current.phase then (timers, Unchanged)
    else if progress.version < current.liveVersion || (current.phase == PlayingTimer && progress.phase == BiddingTimer)
        then (timers, Regressed)
    else (timers[hand := current.(liveVersion := progress.version, phase := progress.phase,
                                  deadline := now + TimeoutFor(config, progress.phase))],
          Changed)
  }

  predicate DueUnchanged(timers: Timers, hand: Text, expected: Timer, now: int) {
    && hand in timers
    && var current := timers[hand];
      && current.pending.None? && current.actor == expected.actor && current.phase == expected.phase
      && current.liveVersion == expected.liveVersion && current.deadline == expected.deadline
      && now >= current.deadline
  }

  datatype Begun = Stop | TerminationConflict | Execute(pending: Termination) | Prepare(liveVersion: nat)

  /** terminateWhenDue, first section. */
  function Begin(timers: Timers, hand: Text, kind: TerminationKind, reason: Text, due: Option<Timer>, now: int): Begun {
    var current := TimerOf(timers, hand);
    if due.Some? && !DueUnchanged(timers, hand, due.value, now) then Stop
    else
      match current.pending
      case Some(pending) =>
        if pending.kind != kind || pending.reason != reason then TerminationConflict else Execute(pending)
      case None => Prepare(current.liveVersion)
  }

  /** terminateWhenDue, second section: install the command, unless another one is there already. */
  function Installed(timers: Timers, hand: Text, actor: Text, pending: Termination, due: Option<Timer>,
                     now: int): (Timers, Option<Termination>) {
    var current := TimerOf(timers, hand);
    if due.Some? && !DueUnchanged(timers, hand, due.value, now) then (timers, None)
    else
      match current.pending
      case Some(other) => (timers, Some(other))
      case None => (timers[hand := current.(actor := actor, pending := Some(pending))], Some(pending))
  }

  /** executePending after a lost race. */
  function Retired(timers: Timers, hand: Text, commandId: Text): Timers {
    var current := TimerOf(timers, hand);
    if current.pending.Some? && current.pending.value.command.commandId == commandId
    then timers[hand := current.(pending := None)] else timers
  }

  function Forgotten(timers: Timers, hand: Text): Timers {
    timers - {hand}
  }

  /** The timers whose deadline has passed and that have no termination pending. */
  function DueTimers(timers: Timers, now: int): Timers {
    map hand | hand in timers && timers[hand].pending.None? && now >= timers[hand].deadline :: timers[hand]
  }

  class Supervisor {
    const config: Config
    var entries: Timers

    constructor (config: Config)
      ensures this.config == config && entries == map[]
    {
      this.config, entries := config, map[];
    }

    method TrackBidding(hand: Text, actor: Text, progress: Option<Progress>, now: int)
      modifies this
      ensures entries == Armed(old(entries), hand, actor, progress, now, config)
    {
      if hand !in entries {
        var phase, deadline, version := BiddingTimer, now + config.biddingTimeout, 0;
        if progress.Some? {
          version := progress.value.version;
          if progress.value.phase == PlayingTimer {
            phase, deadline := PlayingTimer, now + config.playingTimeout;
          }
        }
        entries := entries[hand := Timer(actor, phase, deadline, version, None)];
      }
    }

    method Schedule(hand: Text, actor: Text, phase: TimerPhase, timeout: nat, version: nat, now: int)
      modifies this
      ensures entries == Scheduled(old(entries), hand, actor, phase, timeout, version, now)
    {
      var current := TimerOf(entries, hand);
      if current.pending.Some? || version <= current.liveVersion
          || (current.phase == PlayingTimer && phase == BiddingTimer) {
        return;
      }
      current := current.(actor := actor, phase := phase, liveVersion := version, deadline := now + timeout);
      entries := entries[hand := current];
    }

    method ScheduleIfPhaseMissing(hand: Text, actor: Text, desired: TimerPhase, timeout: nat, version: nat, now: int)
      modifies this
      ensures entries == ScheduledIfMissing(old(entries), hand, actor, desired, timeout, version, now)
    {
      var current := TimerOf(entries, hand);
      if current.pending.Some?
         || (hand in entries && (current.liveVersion > version || current.phase == desired
                                 || (current.phase == PlayingTimer && desired == BiddingTimer))) {
        return;
      }
      current := current.(actor := actor, phase := desired, liveVersion := version, deadline := now + timeout);
      entries := entries[hand := current];
    }

    method RefreshCommittedProgress(hand: Text, original: Timer, progress: Progress, now: int)
      returns (r: RefreshAnswer)
      modifies this
      ensures (entries, r) == Refreshed(old(entries), hand, original, progress, now, config)
    {
      var current := TimerOf(entries, hand);
      if hand !in entries || current.pending.Some? || current.liveVersion != original.liveVersion
         || current.phase != original.phase || current.deadline != original.deadline {
        return Changed;
      }
      if progress.version <= current.liveVersion && progress.phase == current.phase {
        return Unchanged;
      }
      if progress.version < current.liveVersion || (current.phase == PlayingTimer && progress.phase == BiddingTimer) {
        return Regressed;
      }
      current := current.(liveVersion := progress.version, phase := progress.phase,
                          deadline := now + config.biddingTimeout);
      if progress.phase == PlayingTimer {
        current := current.(deadline := now + config.playingTimeout);
      }
      entries := entries[hand := current];
      return Changed;
    }

    method BeginTermination(hand: Text, kind: TerminationKind, reason: Text, due: Option<Timer>, now: int)
      returns (r: Begun)
      ensures r == Begin(entries, hand, kind, reason, due, now)
    {
      var current := TimerOf(entries, hand);
      if due.Some? && !DueUnchanged(entries, hand, due.value, now) {
        return Stop;
      }
      if current.pending.Some? {
        var pending := current.pending.value;
        return if pending.kind != kind || pending.reason != reason then TerminationConflict else Execute(pending);
      }
      return Prepare(current.liveVersion);
    }

    method InstallTermination(hand: Text, actor: Text, pending: Termination, due: Option<Timer>, now: int)
      returns (r: Option<Termination>)
      modifies this
      ensures (entries, r) == Installed(old(entries), hand, actor, pending, due, now)
    {
      var current := TimerOf(entries, hand);
      if due.Some? && !DueUnchanged(entries, hand, due.value, now) {
        return None;
      }
      if current.pending.Some? {
        return current.pending;
      }
      current := current.(actor := actor, pending := Some(pending));
      entries := entries[hand := current];
      return Some(pending);
    }

    method RetirePending(hand: Text, commandId: Text) returns (current: Timer)
      modifies this
      ensures entries == Retired(old(entries), hand, commandId) && current == TimerOf(entries, hand)
    {
      current := TimerOf(entries, hand);
      if current.pending.Some? && current.pending.value.command.commandId == commandId {
        current := current.(pending := None);
        entries := entries[hand := current];
      }
    }

    method Forget(hand: Text)
      modifies this
      ensures entries == Forgotten(old(entries), hand)
    {
      entries := entries - {hand};
    }

    /** The candidates of a sweep. */
    method Due(now: int) returns (due: Timers)
      ensures due == DueTimers(entries, now)
    {
      due := map[];
      var left := entries;
      while left != map[]
        invariant left.Keys <= entries.Keys && forall h :: h in left ==> left[h] == entries[h]
        invariant due.Keys !! left.Keys
        invariant forall h :: h in due ==> h in DueTimers(entries, now) && due[h] == entries[h]
        invariant forall h :: h in DueTimers(entries, now) ==> h in due || h in left
        decreases |left|
      {
        var hand :| hand in left;
        var current := left[hand];
        if current.pending.None? && now >= current.deadline {
          due := due[hand := current];
        }
        ghost var before := left;
        left := left - {hand};
        assert left.Keys == before.Keys - {hand};
        assert |left.Keys| < |before.Keys|;
      }
    }
  }

  // ------------------------------------------------------------------ any interleaving of the sections

  datatype Section =
    | Arm(hand: Text, actor: Text, progress: Option<Progress>, now: int)
    | Schedule(hand: Text, actor: Text, phase: TimerPhase, version: nat, now: int)
    | ScheduleIfMissing(hand: Text, actor: Text, phase: TimerPhase, version: nat, now: int)
    | Refresh(hand: Text, original: Timer, read: Progress, now: int)
    | Install(hand: Text, actor: Text, termination: Termination, due: Option<Timer>, now: int)
    | Retire(hand: Text, commandId: Text)
    | ForgetHand(hand: Text)

  function After(timers: Timers, s: Section, config: Config): Timers {
    match s
    case Arm(hand, actor, progress, now) => Armed(timers, hand, actor, progress, now, config)
    case Schedule(hand, actor, phase, version, now) => Scheduled(timers, hand, actor, phase, TimeoutFor(config, phase),
                                                                 version, now)
    case ScheduleIfMissing(hand, actor, phase, version, now) => ScheduledIfMissing(timers, hand, actor, phase,
        TimeoutFor(config, phase), version, now)
    case Refresh(hand, original, progress, now) => Refreshed(timers, hand, original, progress, now, config).0
    case Install(hand, actor, termination, due, now) => Installed(timers, hand, actor, termination, due, now).0
    case Retire(hand, commandId) => Retired(timers, hand, commandId)
    case ForgetHand(hand) => Forgotten(timers, hand)
  }

  function RunSections(timers: Timers, ss: seq<Section>, config: Config): Timers {
    if ss == [] then timers else After(RunSections(timers, ss[..|ss| - 1], config), ss[|ss| - 1], config)
  }

  /** Callbacks and committed views speak of bidding or playing. */
  predicate Sensible(s: Section) {
    match s
    case Schedule(_, _, phase, _, _) => phase != NoPhase
    case ScheduleIfMissing(_, _, phase, _, _) => phase != NoPhase
    case Refresh(_, _, progress, _) => progress.phase != NoPhase
    case _ => true
  }

  /** What a timer keeps: its version does not go down, playing stays playing, and while a termination is
      pending nothing changes at all. */
  predicate Advances(t: Timer, t': Timer) {
    && t.liveVersion <= t'.liveVersion
    && (t.phase == PlayingTimer ==> t'.phase == PlayingTimer)
    && (t.pending.Some? && t'.pending.Some? ==> t' == t)
  }

  /** One section on any hand: unless the hand is forgotten its timer advances, and a pending termination goes
      only by losing the race under its own command. */
  lemma SectionAdvances(timers: Timers, s: Section, config: Config, hand: Text)
    requires Sensible(s) && hand in timers && !(s.ForgetHand? && s.hand == hand)
    ensures hand in After(timers, s, config) && Advances(timers[hand], After(timers, s, config)[hand])
    ensures var t, t' := timers[hand], After(timers, s, config)[hand];
            t.pending.Some? && t'.pending.None? ==>
              s == Retire(hand, t.pending.value.command.commandId) && t' == t.(pending := None)
  {
  }

  predicate Forgets(s: Section, hand: Text) {
    s.ForgetHand? && s.hand == hand
  }

  /** Until it is forgotten a timer's version never goes down and it never goes from playing back to bidding,
      in any interleaving. */
  lemma {:induction false} TimerNeverGoesBack(timers: Timers, ss: seq<Section>, config: Config, hand: Text)
    requires hand in timers && forall i :: 0 <= i < |ss| ==> Sensible(ss[i]) && !Forgets(ss[i], hand)
    ensures hand in RunSections(timers, ss, config)
    ensures var t' := RunSections(timers, ss, config)[hand];
            timers[hand].liveVersion <= t'.liveVersion
                && (timers[hand].phase == PlayingTimer ==> t'.phase == PlayingTimer)
  {
    if ss != [] {
      TimerNeverGoesBack(timers, ss[..|ss| - 1], config, hand);
      SectionAdvances(RunSections(timers, ss[..|ss| - 1], config), ss[|ss| - 1], config, hand);
    }
  }

  /** An installed termination stays, and with it the whole timer, until the hand is forgotten or the
      termination loses the race: no callback, sweep or second termination replaces it. */
  lemma {:induction false} PendingStays(timers: Timers, ss: seq<Section>, config: Config, hand: Text)
    requires hand in timers && timers[hand].pending.Some?
    requires forall i :: 0 <= i < |ss| ==>
      Sensible(ss[i]) && !Forgets(ss[i], hand) && ss[i] != Retire(hand, timers[hand].pending.value.command.commandId)
    ensures hand in RunSections(timers, ss, config) && RunSections(timers, ss, config)[hand] == timers[hand]
  {
    if ss != [] {
      PendingStays(timers, ss[..|ss| - 1], config, hand);
      SectionAdvances(RunSections(timers, ss[..|ss| - 1], config), ss[|ss| - 1], config, hand);
    }
  }

  /** The first section prepares the version that the sweep saw. */
  lemma DueVersionIsPrepared(timers: Timers, hand: Text, kind: TerminationKind, reason: Text, due: Timer, now: int,
                             version: nat)
    requires Begin(timers, hand, kind, reason, Some(due), now) == Prepare(version)
    ensures version == due.liveVersion
  {
  }

  /** An expiry is installed for a due timer, with a version that the first section prepared for it, whatever the
      timers were then. */
  ghost predicate Prepared(s: Section) {
    s.Install? && s.termination.kind == ExpireTermination ==>
        s.due.Some? && exists timers, now :: Begins(timers, s, now)
  }

  predicate Begins(timers: Timers, s: Section, now: int)
    requires s.Install?
  {
    Begin(timers, s.hand, s.termination.kind, s.termination.reason, s.due, now) == Prepare(s.termination.liveVersion)
  }

  lemma PreparedCarriesVersion(s: Section)
    requires Prepared(s) && s.Install? && s.termination.kind == ExpireTermination
    ensures s.termination.liveVersion == s.due.value.liveVersion
  {
    var timers, now :| Begins(timers, s, now);
    DueVersionIsPrepared(timers, s.hand, s.termination.kind, s.termination.reason, s.due.value, now,
                         s.termination.liveVersion);
  }

  /** The version a pending expiry carries is its timer's. */
  ghost predicate ExpiriesCarryVersion(timers: Timers) {
    forall hand :: hand in timers && timers[hand].pending.Some? && timers[hand].pending.value.kind == ExpireTermination
      ==> timers[hand].pending.value.liveVersion == timers[hand].liveVersion
  }

  lemma {:induction false} ExpiryCarriesTimerVersion(ss: seq<Section>, config: Config)
    requires forall i :: 0 <= i < |ss| ==> Prepared(ss[i])
    ensures ExpiriesCarryVersion(RunSections(map[], ss, config))
  {
    if ss != [] {
      ExpiryCarriesTimerVersion(ss[..|ss| - 1], config);
      var before, s := RunSections(map[], ss[..|ss| - 1], config), ss[|ss| - 1];
      assert Prepared(s);
      SectionKeepsVersions(before, s, config);
    }
  }

  lemma SectionKeepsVersions(timers: Timers, s: Section, config: Config)
    requires Prepared(s) && ExpiriesCarryVersion(timers)
    ensures ExpiriesCarryVersion(After(timers, s, config))
  {
    var after := After(timers, s, config);
    forall hand | hand in after && after[hand].pending.Some? && after[hand].pending.value.kind == ExpireTermination
      ensures after[hand].pending.value.liveVersion == after[hand].liveVersion
    {
      if hand == s.hand {
        match s
        case Install(_, _, termination, _, _) =>
          if termination.kind == ExpireTermination {
            PreparedCarriesVersion(s);
          }
        case _ =>
      }
    }
  }

  // ------------------------------------------------------------------ sweeps

  /** The timers, with the candidates for which a sweep has found nothing newer committed. */
  datatype Sweeping = Sweeping(timers: Timers, cleared: set<(Text, Timer)>)

  function AfterSection(m: Sweeping, s: Section, config: Config): Sweeping {
    Sweeping(After(m.timers, s, config),
             if s.Refresh? && Refreshed(m.timers, s.hand, s.original, s.read, s.now, config).1 == Unchanged
             then m.cleared + {(s.hand, s.original)} else m.cleared)
  }

  function SweepRun(ss: seq<Section>, config: Config): Sweeping {
    if ss == [] then Sweeping(map[], {}) else AfterSection(SweepRun(ss[..|ss| - 1], config), ss[|ss| - 1], config)
  }

  /** A committed view has a version, or it is refused; an expiry is prepared and installed for a candidate that the
      sweep has cleared. */
  ghost predicate Swept(m: Sweeping, s: Section) {
    && (s.Refresh? ==> s.read.version > 0)
    && Prepared(s)
    && (s.Install? && s.termination.kind == ExpireTermination ==> (s.hand, s.due.value) in m.cleared)
  }

  ghost predicate AllSwept(ss: seq<Section>, config: Config) {
    forall i :: 0 <= i < |ss| ==> Swept(SweepRun(ss[..i], config), ss[i])
  }

  ghost predicate ClearedPositive(m: Sweeping) {
    forall c :: c in m.cleared ==> c.1.liveVersion > 0
  }

  ghost predicate ExpiriesPositive(timers: Timers) {
    forall hand :: hand in timers && timers[hand].pending.Some? && timers[hand].pending.value.kind == ExpireTermination
      ==> timers[hand].pending.value.liveVersion > 0
  }

  lemma SectionKeepsPositive(m: Sweeping, s: Section, config: Config)
    requires Swept(m, s) && ClearedPositive(m) && ExpiriesPositive(m.timers)
    ensures ClearedPositive(AfterSection(m, s, config)) && ExpiriesPositive(AfterSection(m, s, config).timers)
  {
    var after := After(m.timers, s, config);
    forall hand | hand in after && after[hand].pending.Some? && after[hand].pending.value.kind == ExpireTermination
      ensures after[hand].pending.value.liveVersion > 0
    {
      if hand == s.hand {
        match s
        case Install(_, _, termination, _, _) =>
          if termination.kind == ExpireTermination {
            PreparedCarriesVersion(s);
          }
        case _ =>
      }
    }
  }

  /** Timers are armed without a version too, after a recovery. Still no sweep ever installs an expiry without
      one, in any interleaving: the refresh in front of it gives the timer the committed version. */
  lemma {:induction false} ExpiriesAlwaysCarryVersion(ss: seq<Section>, config: Config)
    requires AllSwept(ss, config)
    ensures ClearedPositive(SweepRun(ss, config)) && ExpiriesPositive(SweepRun(ss, config).timers)
  {
    if ss != [] {
      var fewer := ss[..|ss| - 1];
      assert forall i :: 0 <= i < |fewer| ==> fewer[..i] == ss[..i];
      ExpiriesAlwaysCarryVersion(fewer, config);
      assert Swept(SweepRun(fewer, config), ss[|ss| - 1]);
      SectionKeepsPositive(SweepRun(fewer, config), ss[|ss| - 1], config);
    }
  }

  // ------------------------------------------------------------------ callbacks out of order

  /** The phase of the live game at each of its versions; once playing, always playing. */
  type History = nat -> TimerPhase

  ghost predicate OneWay(history: History) {
    && (forall v :: history(v) != NoPhase)
    && (forall v, w :: v <= w && history(v) == PlayingTimer ==> history(w) == PlayingTimer)
  }

  datatype Callback = Callback(actor: Text, version: nat, now: int)

  function Callbacks(timers: Timers, hand: Text, history: History, cs: seq<Callback>, config: Config): Timers {
    if cs == [] then timers
    else
      var c := cs[|cs| - 1];
      After(Callbacks(timers, hand, history, cs[..|cs| - 1], config),
            Schedule(hand, c.actor, history(c.version), c.version, c.now), config)
  }

  function Highest(cs: seq<Callback>, from: nat): nat {
    if cs == [] then from
    else
      var before, v := Highest(cs[..|cs| - 1], from), cs[|cs| - 1].version;
      if before < v then v else before
  }

  /** The timer shows the history at its version. Without a version it may only be playing if the game was when
      this process took it over, at version `since`. */
  ghost predicate OnHistory(t: Timer, history: History, since: nat) {
    && (t.liveVersion > 0 ==> t.phase == history(t.liveVersion))
    && (t.liveVersion == 0 && t.phase == PlayingTimer ==> history(since) == PlayingTimer)
  }

  ghost predicate Shows(t: Timer, history: History, since: nat) {
    t.pending.None? && OnHistory(t, history, since)
  }

  /** What the section was told of the hand is true of its live game. A recovered game is scheduled without a
      version, in the phase it was recovered in. */
  predicate Reports(s: Section, history: History, since: nat) {
    match s
    case Arm(_, _, progress, _) =>
      progress.Some? ==> progress.value.version > 0 && progress.value.phase == history(progress.value.version)
    case Schedule(_, _, phase, version, _) => version > 0 && phase == history(version)
    case ScheduleIfMissing(_, _, phase, version, _) => phase == history(if version > 0 then version else since)
    case Refresh(_, _, read, _) => read.version > 0 && read.phase == history(read.version)
    case _ => true
  }

  lemma SectionShowsHistory(timers: Timers, s: Section, config: Config, hand: Text, history: History, since: nat)
    requires OneWay(history) && OnHistory(TimerOf(timers, hand), history, since)
    requires s.hand == hand ==> Reports(s, history, since)
    ensures OnHistory(TimerOf(After(timers, s, config), hand), history, since)
  {
  }

  /** In any interleaving of callbacks, recoveries, receipts of old actions, sweeps and terminations a hand's timer
      shows the phase the live game had at the timer's version. */
  lemma {:induction false} TimersShowHistory(ss: seq<Section>, config: Config, hand: Text, history: History, since: nat)
    requires OneWay(history) && forall i :: 0 <= i < |ss| && ss[i].hand == hand ==> Reports(ss[i], history, since)
    ensures OnHistory(TimerOf(RunSections(map[], ss, config), hand), history, since)
  {
    if ss != [] {
      TimersShowHistory(ss[..|ss| - 1], config, hand, history, since);
      SectionShowsHistory(RunSections(map[], ss[..|ss| - 1], config), ss[|ss| - 1], config, hand, history, since);
    }
  }

  /** A sweep that has seen a timer due installs nothing once a callback has renewed that timer. */
  lemma RenewalDefeatsSweep(timers: Timers, hand: Text, actor: Text, phase: TimerPhase, timeout: nat, version: nat,
                            now: int, sweeper: Text, pending: Termination, later: int)
    requires hand in timers && timers[hand].pending.None? && version > timers[hand].liveVersion
    requires !(timers[hand].phase == PlayingTimer && phase == BiddingTimer)
    ensures var renewed := Scheduled(timers, hand, actor, phase, timeout, version, now);
            Installed(renewed, hand, sweeper, pending, Some(timers[hand]), later) == (renewed, None)
  {
  }

  /** A termination that a sweep installs is of a timer that is due, unchanged since the sweep saw it. */
  lemma OnlyDueTimersExpire(timers: Timers, hand: Text, actor: Text, pending: Termination, due: Timer, now: int)
    requires due.pending.None? && Installed(timers, hand, actor, pending, Some(due), now).0 != timers
    ensures hand in DueTimers(timers, now) && due == timers[hand]
    ensures Installed(timers, hand, actor, pending, Some(due), now).0
            == timers[hand := due.(actor := actor, pending := Some(pending))]
  {
  }

  /** The callbacks are of actions since the process took the game over. */
  predicate AllSince(cs: seq<Callback>, since: nat) {
    forall i :: 0 <= i < |cs| ==> cs[i].version >= since
  }

  /** Whatever order the callbacks of one live history come in, and however often: the timer ends at the
      largest version delivered and at its phase. */
  lemma {:induction false} CallbacksEndAtHighest(timers: Timers, hand: Text, history: History, since: nat,
                                                 cs: seq<Callback>, config: Config)
    requires OneWay(history) && Shows(TimerOf(timers, hand), history, since) && AllSince(cs, since)
    ensures var t := TimerOf(Callbacks(timers, hand, history, cs, config), hand);
            Shows(t, history, since) && t.liveVersion == Highest(cs, TimerOf(timers, hand).liveVersion)
  {
    if cs != [] {
      CallbacksEndAtHighest(timers, hand, history, since, cs[..|cs| - 1], config);
    }
  }

  lemma {:induction false} HighestIsUpperBound(cs: seq<Callback>, from: nat, i: nat)
    requires i < |cs|
    ensures cs[i].version <= Highest(cs, from)
  {
    if i < |cs| - 1 {
      HighestIsUpperBound(cs[..|cs| - 1], from, i);
    }
  }

  lemma {:induction false} HighestIsReached(cs: seq<Callback>, from: nat)
    ensures from <= Highest(cs, from)
    ensures Highest(cs, from) == from || exists i :: 0 <= i < |cs| && cs[i].version == Highest(cs, from)
  {
    if cs != [] {
      HighestIsReached(cs[..|cs| - 1], from);
      if Highest(cs, from) == cs[|cs| - 1].version {
      } else if Highest(cs[..|cs| - 1], from) != from {
        var i :| 0 <= i < |cs| - 1 && cs[..|cs| - 1][i].version == Highest(cs[..|cs| - 1], from);
        assert cs[i].version == Highest(cs, from);
      }
    }
  }

  /** Two orders of the same callbacks, with any repetitions, end in the same version and phase. */
  lemma {:induction false} OrderDoesNotMatter(timers: Timers, hand: Text, history: History, since: nat,
                                              cs: seq<Callback>, ds: seq<Callback>, config: Config)
    requires OneWay(history) && Shows(TimerOf(timers, hand), history, since)
    requires AllSince(cs, since) && AllSince(ds, since)
    requires forall c :: c in cs ==> exists d :: d in ds && d.version == c.version
    requires forall d :: d in ds ==> exists c :: c in cs && c.version == d.version
    ensures var t, u := TimerOf(Callbacks(timers, hand, history, cs, config), hand),
            TimerOf(Callbacks(timers, hand, history, ds, config), hand);
            t.liveVersion == u.liveVersion && (t.liveVersion > 0 ==> t.phase == u.phase)
  {
    var from := TimerOf(timers, hand).liveVersion;
    CallbacksEndAtHighest(timers, hand, history, since, cs, config);
    CallbacksEndAtHighest(timers, hand, history, since, ds, config);
    HighestBelow(cs, ds, from);
    HighestBelow(ds, cs, from);
  }

  lemma {:induction false} HighestBelow(cs: seq<Callback>, ds: seq<Callback>, from: nat)
    requires forall c :: c in cs ==> exists d :: d in ds && d.version == c.version
    ensures Highest(cs, from) <= Highest(ds, from)
  {
    HighestIsReached(cs, from);
    HighestIsReached(ds, from);
    if Highest(cs, from) != from {
      var i :| 0 <= i < |cs| && cs[i].version == Highest(cs, from);
      assert cs[i] in cs;
      var d :| d in ds && d.version == cs[i].version;
      var j :| 0 <= j < |ds| && ds[j] == d;
      HighestIsUpperBound(ds, from, j);
    }
  }

  // ------------------------------------------------------------------ deadlines

  /** The section is a renewal that leaves this timer: in the phase and at the version it was told, with that phase's
      whole timeout from its own clock reading on. */
  predicate Renews(s: Section, t: Timer, config: Config) {
    var timeout := if t.phase == PlayingTimer then config.playingTimeout else config.biddingTimeout;
    match s
    case Arm(_, _, progress, now) =>
      && t.phase == (if progress.Some? && progress.value.phase == PlayingTimer then PlayingTimer else BiddingTimer)
      && t.liveVersion == (if progress.Some? then progress.value.version else 0) && t.deadline == now + timeout
    case Schedule(_, _, phase, version, now) =>
      t.phase == phase && t.liveVersion == version && t.deadline == now + timeout
    case ScheduleIfMissing(_, _, phase, version, now) =>
      t.phase == phase && t.liveVersion == version && t.deadline == now + timeout
    case Refresh(_, _, read, now) =>
      t.phase == read.phase && t.liveVersion == read.version && t.deadline == now + timeout
    case _ => false
  }

  /** The same phase, version and deadline. */
  predicate SameTerm(t: Timer, u: Timer) {
    t.phase == u.phase && t.liveVersion == u.liveVersion && t.deadline == u.deadline
  }

  lemma OnlyRenewalsChangeTerm(timers: Timers, s: Section, config: Config, hand: Text)
    requires hand in After(timers, s, config)
    requires hand in timers ==> !SameTerm(timers[hand], After(timers, s, config)[hand])
    requires After(timers, s, config)[hand].phase != NoPhase
    ensures s.hand == hand && Renews(s, After(timers, s, config)[hand], config)
  {
  }

  /** Every timer stands as its last renewal set it: at its phase's timeout from that renewal's clock reading. Only an
      entry that a termination made for a hand without a timer has no phase. */
  lemma {:induction false} DeadlineIsFromLastRenewal(ss: seq<Section>, config: Config, hand: Text) returns (j: nat)
    requires hand in RunSections(map[], ss, config) && RunSections(map[], ss, config)[hand].phase != NoPhase
    ensures j < |ss| && ss[j].hand == hand && Renews(ss[j], RunSections(map[], ss, config)[hand], config)
    ensures forall k :: j < k <= |ss| ==>
              hand in RunSections(map[], ss[..k], config)
              && SameTerm(RunSections(map[], ss[..k], config)[hand], RunSections(map[], ss, config)[hand])
  {
    var n := |ss| - 1;
    var fewer := ss[..n];
    var before, after := RunSections(map[], fewer, config), RunSections(map[], ss, config);
    assert ss[..|ss|] == ss;
    if hand in before && SameTerm(before[hand], after[hand]) {
      assert forall i :: 0 <= i <= n ==> fewer[..i] == ss[..i];
      j := DeadlineIsFromLastRenewal(fewer, config, hand);
      SameTermRenews(ss[j], before[hand], after[hand], config);
    } else {
      OnlyRenewalsChangeTerm(before, ss[n], config, hand);
      j := n;
    }
  }

  lemma SameTermRenews(s: Section, t: Timer, u: Timer, config: Config)
    requires Renews(s, t, config) && SameTerm(t, u)
    ensures Renews(s, u, config)
  {
  }

  /** Nobody is expired early: when a sweep installs a termination, the whole timeout of the timer's phase has passed
      since the timer's last renewal. */
  lemma {:induction false} NobodyExpiresEarly(ss: seq<Section>, config: Config, hand: Text, actor: Text,
                                              pending: Termination, due: Timer, now: int) returns (j: nat)
    requires due.pending.None? && due.phase != NoPhase
    requires Installed(RunSections(map[], ss, config), hand, actor, pending, Some(due), now).0
             != RunSections(map[], ss, config)
    ensures hand in RunSections(map[], ss, config) && j < |ss| && ss[j].hand == hand
    ensures var t := RunSections(map[], ss, config)[hand];
            && Renews(ss[j], t, config) && !ss[j].Install? && !ss[j].Retire? && !ss[j].ForgetHand?
            && now >= ss[j].now + (if t.phase == PlayingTimer then config.playingTimeout else config.biddingTimeout)
  {
    OnlyDueTimersExpire(RunSections(map[], ss, config), hand, actor, pending, due, now);
    j := DeadlineIsFromLastRenewal(ss, config, hand);
  }

  /** A callback renews the timer exactly if its version is newer, no termination is pending and it does not lead from
      playing back to bidding. */
  lemma NewerCallbackRenews(timers: Timers, hand: Text, actor: Text, phase: TimerPhase, version: nat, now: int,
                            config: Config)
    requires phase != NoPhase
    ensures var t := TimerOf(timers, hand);
            var after := After(timers, Schedule(hand, actor, phase, version, now), config);
            if version > t.liveVersion && t.pending.None? && (t.phase == PlayingTimer ==> phase == PlayingTimer) then
              && hand in after && after == timers[hand := after[hand]] && after[hand].actor == actor
              && after[hand].pending.None? && Renews(Schedule(hand, actor, phase, version, now), after[hand], config)
            else after == timers
  {
  }

  /** A hand's first registration stands: registering it again changes nothing. */
  lemma FirstRegistrationStands(timers: Timers, hand: Text, actor: Text, progress: Option<Progress>, now: int,
                                config: Config)
    ensures var after := After(timers, Arm(hand, actor, progress, now), config);
            if hand in timers then after == timers
            else
              && hand in after && after == timers[hand := after[hand]] && after[hand].actor == actor
              && after[hand].pending.None? && Renews(Arm(hand, actor, progress, now), after[hand], config)
  {
  }

  /** A receipt of an old action renews the timer only if there is none yet or it would move to the other phase, and
      never against a newer version, a pending termination or back to bidding. */
  lemma OldReceiptOnlyFillsIn(timers: Timers, hand: Text, actor: Text, desired: TimerPhase, version: nat, now: int,
                              config: Config)
    requires desired != NoPhase
    ensures var t, s := TimerOf(timers, hand), ScheduleIfMissing(hand, actor, desired, version, now);
            var after := After(timers, s, config);
            if t.pending.None? && (hand !in timers || (version >= t.liveVersion && t.phase != desired
                                                       && t.phase != PlayingTimer)) then
              && hand in after && after == timers[hand := after[hand]] && after[hand].actor == actor
              && after[hand].pending.None? && Renews(s, after[hand], config)
            else after == timers
  {
  }

  /** A refresh says truly what it found: nothing new, something that may not be, or a timer that is another one now or
      has just been renewed. */
  lemma RefreshTells(timers: Timers, hand: Text, original: Timer, read: Progress, now: int, config: Config)
    requires read.phase != NoPhase
    ensures var (after, r) := Refreshed(timers, hand, original, read, now, config);
            var t := TimerOf(timers, hand);
            var same := hand in timers && t.pending.None? && SameTerm(t, original);
            && (r == Unchanged <==> same && read.version <= t.liveVersion && read.phase == t.phase)
            && (r == Regressed <==>
                  same && !(read.version <= t.liveVersion && read.phase == t.phase)
                  && (read.version < t.liveVersion || (t.phase == PlayingTimer && read.phase == BiddingTimer)))
            && (after != timers ==>
                  && r == Changed && same && hand in after && after == timers[hand := after[hand]]
                  && after[hand].actor == t.actor && after[hand].pending.None?
                  && Renews(Refresh(hand, original, read, now), after[hand], config))
            && (same && read.version > t.liveVersion && !(t.phase == PlayingTimer && read.phase == BiddingTimer) ==>
                  hand in after && Renews(Refresh(hand, original, read, now), after[hand], config))
  {
  }

  /** A termination begins by running the one that is pending, if it is of the same kind and reason; it is in conflict
      with another; a due timer that has changed stops it; and otherwise the timer's version is prepared. */
  lemma TerminationBegins(timers: Timers, hand: Text, kind: TerminationKind, reason: Text, due: Option<Timer>, now: int)
    ensures var r, t := Begin(timers, hand, kind, reason, due, now), TimerOf(timers, hand);
            && (r.Stop? <==> due.Some? && !DueUnchanged(timers, hand, due.value, now))
            && (r.Execute? ==> t.pending == Some(r.pending) && r.pending.kind == kind && r.pending.reason == reason)
            && (r.TerminationConflict? ==>
                  t.pending.Some? && (t.pending.value.kind != kind || t.pending.value.reason != reason))
            && (r.Prepare? ==> t.pending.None? && r.liveVersion == t.liveVersion)
  {
  }

  /** What is installed is pending afterwards, unless another termination was there first; nothing else of the timer
      changes but its actor. */
  lemma InstallingPends(timers: Timers, hand: Text, actor: Text, pending: Termination, due: Option<Timer>, now: int)
    ensures var (after, r) := Installed(timers, hand, actor, pending, due, now);
            var t := TimerOf(timers, hand);
            && (r.None? <==> due.Some? && !DueUnchanged(timers, hand, due.value, now))
            && (r.Some? ==> TimerOf(after, hand).pending == r && SameTerm(TimerOf(after, hand), t))
            && (r.Some? && t.pending.Some? ==> r == t.pending && after == timers)
            && (r.Some? && t.pending.None? ==>
                  r == Some(pending) && TimerOf(after, hand).actor == actor && after == timers[hand := after[hand]])
            && (r.None? ==> after == timers)
  {
  }

  /** Only the termination with this very command is dropped after a lost race, and nothing else of its timer; other
      terminations and timers stay. */
  lemma RetirementDropsOwn(timers: Timers, hand: Text, commandId: Text)
    ensures var t, after := TimerOf(timers, hand), Retired(timers, hand, commandId);
            if t.pending.Some? && t.pending.value.command.commandId == commandId then
              hand in after && after == timers[hand := after[hand]] && after[hand].pending.None?
              && SameTerm(after[hand], t) && after[hand].actor == t.actor
            else after == timers
  {
  }

  /** The candidates of a sweep are exactly the timers that the first section of a termination would go on with. */
  lemma CandidatesMayBegin(timers: Timers, now: int, hand: Text)
    ensures hand in DueTimers(timers, now)
            <==> hand in timers && DueUnchanged(timers, hand, timers[hand], now)
    ensures hand in DueTimers(timers, now) ==>
              && DueTimers(timers, now)[hand] == timers[hand] && timers[hand].pending.None?
              && now >= timers[hand].deadline
  {
  }
}
