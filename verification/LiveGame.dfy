/** One live game and its entry in the directory: what each operation does under the entry's lock. */
module LiveGame {
  import opened Bytes
  import opened Text
  import opened Identity

  const MAX_PAYLOAD := 0x100_0000

  datatype LiveCommand = LiveCommand(actor: nat, expectedVersion: nat, payload: Text)

  datatype LiveOutcome = LiveOutcome(version: nat, payload: Text, terminal: bool, finalPayload: Text)

  datatype GameView = GameView(version: nat, payload: Text)

  datatype FinalStatus = Completed | Aborted

  /** A final record without its digest. */
  datatype FinalRecord = FinalRecord(id: Text, descriptor: Descriptor, status: FinalStatus, version: nat, payload: Text)

  datatype LiveError =
    | InstanceNotFound | FinalizationPending | InvalidArgument | VerificationFailed | GameRefused | ArchiveFailed
    | NotFinalizing | InstanceExists

  datatype Answer<+T> = Answered(value: T) | Failed(error: LiveError)

  /** A game's rules. Applying or aborting may change the game even when it reports an error. */
  datatype Rules<!G> = Rules(
    apply: (G, LiveCommand) -> (G, Answer<LiveOutcome>),
    abort: (G, Text) -> (G, Answer<LiveOutcome>),
    cloneable: G -> bool,
    view: (G, nat, bool) -> Answer<GameView>)

  datatype Entry<+G> = Entry(game: G, descriptor: Descriptor, pending: Option<FinalRecord>, closed: bool,
                             quarantined: bool)

  /** What persisting reported, and for an error whether the journal has the command nevertheless. */
  datatype Persistence = Persisted | NotWritten | WrittenButUnconfirmed

  /** NewFinalRecord. */
  function NewFinalRecord(id: Text, descriptor: Descriptor, status: FinalStatus, version: nat,
                          payload: Text): Answer<FinalRecord> {
    if !ValidId(id) || !ValidDescriptor(descriptor) || version == 0 || payload == [] || |payload| > MAX_PAYLOAD
    then Failed(InvalidArgument)
    else Answered(FinalRecord(id, descriptor, status, version, payload))
  }

  /** The entry afterwards, the answer, and whether the pending record is to be archived now. */
  datatype Held<+G, +T> = Held(entry: Entry<G>, answer: Answer<T>, archiving: bool)

  function ActorOutOfRange<G>(e: Entry<G>, c: LiveCommand): bool {
    !HasPosition(e.descriptor, c.actor)
  }

  /** Apply, up to the archive. */
  function Applied<G>(rules: Rules<G>, id: Text, e: Entry<G>, c: LiveCommand): Held<G, LiveOutcome> {
    if e.closed || e.quarantined then Held(e, Failed(InstanceNotFound), false)
    else if e.pending.Some? then Held(e, Failed(FinalizationPending), false)
    else if ActorOutOfRange(e, c) then Held(e, Failed(InvalidArgument), false)
    else
      var (game, answer) := rules.apply(e.game, c);
      var played := e.(game := game);
      match answer
      case Failed(error) => Held(played, Failed(error), false)
      case Answered(outcome) =>
        if !outcome.terminal then
          if outcome.finalPayload != [] then Held(played, Failed(VerificationFailed), false)
              else Held(played, answer, false)
        else
          match NewFinalRecord(id, e.descriptor, Completed, outcome.version, outcome.finalPayload)
          case Failed(error) => Held(played, Failed(error), false)
          case Answered(record) => Held(played.(pending := Some(record)), answer, true)
  }

  /** The candidate of a durable commit: the next game, its outcome and its final record if terminal. */
  function Candidate<G>(rules: Rules<G>, id: Text, e: Entry<G>, c: LiveCommand): Answer<(G, LiveOutcome,
      Option<FinalRecord>)> {
    if e.closed || e.quarantined || e.pending.Some? then Failed(FinalizationPending)
    else if ActorOutOfRange(e, c) || !rules.cloneable(e.game) then Failed(InvalidArgument)
    else
      var (game, answer) := rules.apply(e.game, c);
      match answer
      case Failed(error) => Failed(error)
      case Answered(outcome) =>
        if !outcome.terminal then
          if outcome.finalPayload != [] then Failed(VerificationFailed) else Answered((game, outcome, None))
        else
          match NewFinalRecord(id, e.descriptor, Completed, outcome.version, outcome.finalPayload)
          case Failed(error) => Failed(error)
          case Answered(record) => Answered((game, outcome, Some(record)))
  }

  /** ApplyCommitted, up to the archive: nothing is published before the journal has it. */
  function Committed<G>(rules: Rules<G>, id: Text, e: Entry<G>, c: LiveCommand, persist: Persistence): Held<G,
      LiveOutcome> {
    match Candidate(rules, id, e, c)
    case Failed(error) => Held(e, Failed(error), false)
    case Answered((game, outcome, final)) =>
      if persist != Persisted then Held(e.(quarantined := true), Failed(VerificationFailed), false)
      else Held(e.(game := game, pending := final), Answered(outcome), final.Some?)
  }

  /** Abort, up to the archive. It does not look at the quarantine. */
  function AbortedBy<G>(rules: Rules<G>, id: Text, e: Entry<G>, reason: Text): Held<G, FinalRecord> {
    if e.closed then Held(e, Failed(InstanceNotFound), false)
    else if e.pending.Some? then Held(e, Failed(FinalizationPending), false)
    else if !ValidId(reason) then Held(e, Failed(InvalidArgument), false)
    else
      var (game, answer) := rules.abort(e.game, reason);
      var stopped := e.(game := game);
      match answer
      case Failed(error) => Held(stopped, Failed(error), false)
      case Answered(outcome) =>
        match NewFinalRecord(id, e.descriptor, Aborted, outcome.version, outcome.finalPayload)
        case Failed(error) => Held(stopped, Failed(error), false)
        case Answered(record) => Held(stopped.(pending := Some(record)), Answered(record), true)
  }

  /** RetryArchive, up to the archive. */
  function Retried<G>(e: Entry<G>): Held<G, FinalRecord> {
    if e.closed then Held(e, Failed(InstanceNotFound), false)
    else if e.pending.None? then Held(e, Failed(NotFinalizing), false)
    else Held(e, Answered(e.pending.value), true)
  }

  /** View: the game's own view, or its refusal, for viewers the game has. */
  function Viewed<G>(rules: Rules<G>, e: Entry<G>, viewer: nat, publicOnly: bool): Answer<GameView> {
    if e.closed || e.quarantined then Failed(InstanceNotFound)
    else if !publicOnly && !HasPosition(e.descriptor, viewer) then Failed(InvalidArgument)
    else rules.view(e.game, viewer, publicOnly)
  }

  /** What the archive's answer makes of the entry. */
  function AfterArchive<G>(e: Entry<G>, archived: bool): Entry<G> {
    if archived then e.(pending := None, closed := true) else e
  }

  /** A closed, quarantined or finalizing entry refuses every command and stays as it was. The first two refuse
      views as well; a finalizing one still shows its game. */
  lemma BlockedOperations<G>(rules: Rules<G>, id: Text, e: Entry<G>, c: LiveCommand, persist: Persistence, viewer: nat)
    requires e.closed || e.quarantined || e.pending.Some?
    ensures e.closed || e.quarantined ==> Viewed(rules, e, viewer, true) == Failed(InstanceNotFound)
    ensures !e.closed && !e.quarantined ==> Viewed(rules, e, viewer, true) == rules.view(e.game, viewer, true)
    ensures Applied(rules, id, e, c).entry == e && Applied(rules, id, e, c).answer.Failed?
    ensures Committed(rules, id, e, c, persist).entry == e && Committed(rules, id, e, c, persist).answer.Failed?
  {
  }

  /** On an entry that can be cloned, a durable commit whose persisting succeeds answers, and leaves the entry,
      exactly as the direct application does; where it refuses it leaves the entry alone. */
  lemma CommitAgreesWithApply<G>(rules: Rules<G>, id: Text, e: Entry<G>, c: LiveCommand)
    requires rules.cloneable(e.game)
    ensures var committed, applied := Committed(rules, id, e, c, Persisted), Applied(rules, id, e, c);
            && (committed.answer.Answered? <==> applied.answer.Answered?)
            && (committed.answer.Answered? ==> committed == applied)
            && (committed.answer.Failed? ==> committed.entry == e)
  {
  }

  /** An abort goes through on a quarantined entry exactly as it would without the quarantine. */
  lemma AbortIgnoresQuarantine<G>(rules: Rules<G>, id: Text, e: Entry<G>, reason: Text)
    ensures var other := AbortedBy(rules, id, e.(quarantined := !e.quarantined), reason);
            var held := AbortedBy(rules, id, e, reason);
            held == Held(other.entry.(quarantined := e.quarantined), other.answer, other.archiving)
  {
  }

  // ------------------------------------------------------------------ what the answers mean

  /** A final record can be made of this. */
  predicate Recordable(id: Text, descriptor: Descriptor, version: nat, payload: Text) {
    ValidId(id) && ValidDescriptor(descriptor) && version > 0 && 0 < |payload| <= MAX_PAYLOAD
  }

  /** A terminal outcome can be recorded, and another has no final payload. */
  predicate Coherent(id: Text, descriptor: Descriptor, outcome: LiveOutcome) {
    if outcome.terminal then Recordable(id, descriptor, outcome.version, outcome.finalPayload)
    else outcome.finalPayload == []
  }

  predicate TakesCommands<G>(e: Entry<G>) {
    !e.closed && !e.quarantined && e.pending.None?
  }

  /** An entry that takes commands answers a player's command exactly as the game's rules do, if what they say is
      coherent; a terminal outcome leaves the record of a completed game, to be archived. Otherwise there is no answer,
      and an entry that does not ask the rules stays as it was. */
  lemma AppliedTellsRules<G>(rules: Rules<G>, id: Text, e: Entry<G>, c: LiveCommand)
    ensures var held, (game, said) := Applied(rules, id, e, c), rules.apply(e.game, c);
            var asked := TakesCommands(e) && HasPosition(e.descriptor, c.actor);
            && (held.answer.Answered? <==> asked && said.Answered? && Coherent(id, e.descriptor, said.value))
            && (held.answer.Answered? ==>
                  && held.answer == said && held.archiving == said.value.terminal
                  && held.entry == e.(game := game,
                                      pending := if !said.value.terminal then None
                                                 else Some(FinalRecord(id, e.descriptor, Completed, said.value.version,
                                                                       said.value.finalPayload))))
            && (held.answer.Failed? ==> !held.archiving && held.entry == if asked then e.(game := game) else e)
  {
  }

  /** A durable commit whose candidate is fine but which is not persisted quarantines the entry and changes nothing
      else. */
  lemma UnpersistedQuarantines<G>(rules: Rules<G>, id: Text, e: Entry<G>, c: LiveCommand, persist: Persistence)
    requires rules.cloneable(e.game) && Applied(rules, id, e, c).answer.Answered? && persist != Persisted
    ensures var held := Committed(rules, id, e, c, persist);
            held.entry == e.(quarantined := true) && held.answer.Failed? && !held.archiving
  {
  }

  /** An abort that the rules allow leaves the record of an aborted game, to be archived. */
  lemma AbortedTellsRules<G>(rules: Rules<G>, id: Text, e: Entry<G>, reason: Text)
    ensures var held, (game, said) := AbortedBy(rules, id, e, reason), rules.abort(e.game, reason);
            var asked := !e.closed && e.pending.None? && ValidId(reason);
            && (held.answer.Answered? <==>
                  && asked && said.Answered?
                  && Recordable(id, e.descriptor, said.value.version, said.value.finalPayload))
            && (held.answer.Answered? ==>
                  && held.answer.value == FinalRecord(id, e.descriptor, Aborted, said.value.version,
                                                      said.value.finalPayload)
                  && held.archiving && held.entry == e.(game := game, pending := Some(held.answer.value)))
            && (held.answer.Failed? ==> !held.archiving && held.entry == if asked then e.(game := game) else e)
  {
  }

  /** Retrying the archive hands over the record that is pending, and changes nothing. */
  lemma RetryHandsOverRecord<G>(e: Entry<G>)
    ensures var held := Retried(e);
            && held.entry == e && (held.answer.Answered? <==> !e.closed && e.pending.Some?)
            && (held.answer.Answered? ==> held.answer.value == e.pending.value)
            && held.archiving == held.answer.Answered?
  {
  }

  /** A viewer whom the game has sees what the game shows of itself. */
  lemma ViewIsGames<G>(rules: Rules<G>, e: Entry<G>, viewer: nat, publicOnly: bool)
    requires !e.closed && !e.quarantined && (publicOnly || HasPosition(e.descriptor, viewer))
    ensures Viewed(rules, e, viewer, publicOnly) == rules.view(e.game, viewer, publicOnly)
  {
  }

  // ------------------------------------------------------------------ persist before publish

  /** The game after these commands, or None when one of them is refused. */
  function Replayed<G>(rules: Rules<G>, game: G, commands: seq<LiveCommand>): Option<G> {
    if commands == [] then Some(game)
    else
      match Replayed(rules, game, commands[..|commands| - 1])
      case None => None
      case Some(before) =>
        var (after, answer) := rules.apply(before, commands[|commands| - 1]);
        if answer.Answered? then Some(after) else None
  }

  /** What the journal holds after a durable commit. */
  function Journaled<G>(rules: Rules<G>, id: Text, e: Entry<G>, c: LiveCommand, persist: Persistence,
                        journal: seq<LiveCommand>): seq<LiveCommand> {
    if Candidate(rules, id, e, c).Failed? || persist == NotWritten then journal else journal + [c]
  }

  /** One durable commit, and the answers the archive gives to attempts behind it. */
  datatype CommitStep = CommitStep(c: LiveCommand, persist: Persistence, archives: seq<bool>)

  function ArchiveAttempts<G>(e: Entry<G>, attempts: seq<bool>): Entry<G> {
    if attempts == [] then e
    else
      var before := ArchiveAttempts(e, attempts[..|attempts| - 1]);
      if Retried(before).archiving then AfterArchive(before, attempts[|attempts| - 1]) else before
  }

  /** The entry and the journal after a run of durable commits. */
  function CommitRun<G>(rules: Rules<G>, id: Text, e: Entry<G>, steps: seq<CommitStep>): (Entry<G>, seq<LiveCommand>) {
    if steps == [] then (e, [])
    else
      var (before, journal) := CommitRun(rules, id, e, steps[..|steps| - 1]);
      var s := steps[|steps| - 1];
      (ArchiveAttempts(Committed(rules, id, before, s.c, s.persist).entry, s.archives),
       Journaled(rules, id, before, s.c, s.persist, journal))
  }

  lemma {:induction false} ArchivingKeepsGame<G>(e: Entry<G>, attempts: seq<bool>)
    ensures var e' := ArchiveAttempts(e, attempts);
            e'.game == e.game && e'.quarantined == e.quarantined && e'.descriptor == e.descriptor
  {
    if attempts != [] {
      ArchivingKeepsGame(e, attempts[..|attempts| - 1]);
    }
  }

  /** The published game is the replay of the journal - all of it, or when quarantined possibly without the one
      command whose persistence was ambiguous. */
  ghost predicate PublishedIsJournal<G>(rules: Rules<G>, initial: G, e: Entry<G>, journal: seq<LiveCommand>) {
    || Replayed(rules, initial, journal) == Some(e.game)
    || (e.quarantined && journal != [] && Replayed(rules, initial, journal[..|journal| - 1]) == Some(e.game))
  }

  lemma CommitKeepsPublished<G>(rules: Rules<G>, id: Text, initial: G, e: Entry<G>, journal: seq<LiveCommand>,
                                s: CommitStep)
    requires PublishedIsJournal(rules, initial, e, journal)
    ensures PublishedIsJournal(rules, initial, Committed(rules, id, e, s.c, s.persist).entry,
                               Journaled(rules, id, e, s.c, s.persist, journal))
  {
    var journal' := Journaled(rules, id, e, s.c, s.persist, journal);
    if journal' != journal {
      assert journal'[..|journal'| - 1] == journal;
    }
  }

  /** Persist before publish, over every run of durable commits with any failures in between. */
  lemma {:induction false} PublishedOnlyWhatPersisted<G>(rules: Rules<G>, id: Text, e: Entry<G>, steps: seq<CommitStep>)
    requires !e.quarantined
    ensures var (e', journal) := CommitRun(rules, id, e, steps);
            && PublishedIsJournal(rules, e.game, e', journal)
            && (!e'.quarantined ==> Replayed(rules, e.game, journal) == Some(e'.game))
  {
    if steps != [] {
      var fewer := steps[..|steps| - 1];
      PublishedOnlyWhatPersisted(rules, id, e, fewer);
      var (before, journal) := CommitRun(rules, id, e, fewer);
      var s := steps[|steps| - 1];
      var after := Committed(rules, id, before, s.c, s.persist).entry;
      CommitKeepsPublished(rules, id, e.game, before, journal, s);
      ArchivingKeepsGame(after, s.archives);
    }
  }

  /** After a failed persist neither the game nor the journal ever changes again through durable commits. */
  lemma {:induction false} QuarantineIsFinal<G>(rules: Rules<G>, id: Text, e: Entry<G>, steps: seq<CommitStep>)
    requires e.quarantined
    ensures var (e', journal) := CommitRun(rules, id, e, steps); e'.game == e.game && e'.quarantined && journal == []
  {
    if steps != [] {
      QuarantineIsFinal(rules, id, e, steps[..|steps| - 1]);
      var (before, journal) := CommitRun(rules, id, e, steps[..|steps| - 1]);
      var s := steps[|steps| - 1];
      ArchivingKeepsGame(Committed(rules, id, before, s.c, s.persist).entry, s.archives);
    }
  }
}
