/** All interleavings of operations on live entries: locks are per entry, lookups happen outside them, and the
    archive is called in the middle. */
module Finalization {
  import opened Bytes
  import opened Text
  import opened Identity
  import opened LiveGame

  /** How far the holder of an entry's lock has come: it has just locked, has put a record up for the archive,
      or has had it archived and the directory cleared. */
  datatype Lock = Free | Locked | Archiving | Closing

  /** An entry that was added at some time, with the records archived for it. */
  datatype Slot<+G> = Slot(id: Text, entry: Entry<G>, lock: Lock, archived: seq<FinalRecord>)

  /** The directory leads to the entries that can be looked up now; the others are still known to whoever
      looked them up earlier. */
  datatype System<+G> = System(directory: map<Text, nat>, slots: seq<Slot<G>>)

  datatype LockedOperation = ApplyOperation(c: LiveCommand) | CommitOperation(c: LiveCommand, persist: Persistence)
                           | AbortOperation(reason: Text) | RetryOperation | ViewOperation

  datatype Event<+G> =
    | Add(id: Text, descriptor: Descriptor, game: G)
    | Acquire(i: nat)
    | Operate(i: nat, op: LockedOperation)
    | ArchiveAnswers(i: nat, ok: bool)
    | Close(i: nat)
    | Compensate(i: nat)

  /** The locked part of an operation: the entry it leaves, and whether it goes on to the archive. */
  function Operated<G>(rules: Rules<G>, id: Text, e: Entry<G>, op: LockedOperation): (Entry<G>, bool) {
    match op
    case ApplyOperation(c) => var held := Applied(rules, id, e, c); (held.entry, held.archiving)
    case CommitOperation(c, persist) => var held := Committed(rules, id, e, c, persist); (held.entry, held.archiving)
    case AbortOperation(reason) => var held := AbortedBy(rules, id, e, reason); (held.entry, held.archiving)
    case RetryOperation => var held := Retried(e); (held.entry, held.archiving)
    case ViewOperation => (e, false)
  }

  predicate Lists<G>(y: System<G>, i: nat) {
    i < |y.slots| && y.slots[i].id in y.directory && y.directory[y.slots[i].id] == i
  }

  /** The directory after the entry i is taken out, if it is the one listed. */
  function Unlisted<G>(y: System<G>, i: nat): map<Text, nat>
    requires i < |y.slots|
  {
    if Lists(y, i) then y.directory - {y.slots[i].id} else y.directory
  }

  predicate At<G>(y: System<G>, i: nat, lock: Lock) {
    i < |y.slots| && y.slots[i].lock == lock
  }

  /** One atomic step; an event whose moment it is not changes nothing. */
  function Step<G>(rules: Rules<G>, y: System<G>, event: Event<G>): System<G> {
    match event
    case Add(id, descriptor, game) =>
      if !ValidId(id) || !ValidDescriptor(descriptor) || id in y.directory then y
      else System(y.directory[id := |y.slots|],
                  y.slots + [Slot(id, Entry(game, descriptor, None, false, false), Free, [])])
    case Acquire(i) =>
      if At(y, i, Free) then y.(slots := y.slots[i := y.slots[i].(lock := Locked)]) else y
    case Operate(i, op) =>
      if At(y, i, Locked) then
        var (e, archiving) := Operated(rules, y.slots[i].id, y.slots[i].entry, op);
        y.(slots := y.slots[i := y.slots[i].(entry := e, lock := if archiving then Archiving else Free)])
      else y
    case ArchiveAnswers(i, ok) =>
      if At(y, i, Archiving) && y.slots[i].entry.pending.Some? then
        if ok then
          System(Unlisted(y, i),
                 y.slots[i := y.slots[i].(lock := Closing,
                                          archived := y.slots[i].archived + [y.slots[i].entry.pending.value])])
        else y.(slots := y.slots[i := y.slots[i].(lock := Free)])
      else y
    case Close(i) =>
      if At(y, i, Closing) then y.(slots := y.slots[i := y.slots[i].(entry := AfterArchive(y.slots[i].entry, true),
                                                                     lock := Free)]) else y
    case Compensate(i) =>
      if !At(y, i, Locked) then y
      else if y.slots[i].entry.closed || y.slots[i].entry.pending.Some? || !Lists(y, i) then
        y.(slots := y.slots[i := y.slots[i].(lock := Free)])
      else System(Unlisted(y, i), y.slots[i := y.slots[i].(entry := y.slots[i].entry.(closed := true), lock := Free)])
  }

  function Run<G>(rules: Rules<G>, y: System<G>, events: seq<Event<G>>): System<G> {
    if events == [] then y else Step(rules, Run(rules, y, events[..|events| - 1]), events[|events| - 1])
  }

  /** One entry, given whether the directory lists it. */
  ghost predicate SlotFits<G>(s: Slot<G>, listed: bool) {
    && (s.entry.closed ==> s.entry.pending.None?)
    && (if s.lock == Closing then
          !listed && !s.entry.closed && s.entry.pending.Some? && s.archived == [s.entry.pending.value]
        else (listed <==> !s.entry.closed) && |s.archived| <= 1 && (s.archived != [] ==> s.entry.closed))
    && (s.lock == Archiving ==> s.entry.pending.Some?)
  }

  ghost predicate Fits<G>(y: System<G>) {
    && (forall i :: 0 <= i < |y.slots| ==> SlotFits(y.slots[i], Lists(y, i)))
    && (forall id :: id in y.directory ==> y.directory[id] < |y.slots| && y.slots[y.directory[id]].id == id)
  }

  lemma OperationFits<G>(rules: Rules<G>, id: Text, e: Entry<G>, op: LockedOperation)
    requires e.closed ==> e.pending.None?
    ensures var (e', archiving) := Operated(rules, id, e, op);
            && e'.closed == e.closed && (e'.closed ==> e'.pending.None?) && (archiving ==> e'.pending.Some?)
            && (e.pending.Some? ==> e' == e)
            && (e'.game != e.game ==> !e.closed && e.pending.None?)
  {
    match op
    case ApplyOperation(c) =>
    case CommitOperation(c, persist) =>
    case AbortOperation(reason) =>
    case RetryOperation =>
    case ViewOperation =>
  }

  lemma StepFits<G>(rules: Rules<G>, y: System<G>, event: Event<G>)
    requires Fits(y)
    ensures Fits(Step(rules, y, event))
  {
    match event
    case Add(id, descriptor, game) => AddFits(rules, y, event);
    case Operate(i, op) =>
      if At(y, i, Locked) {
        OperationFits(rules, y.slots[i].id, y.slots[i].entry, op);
        ChangeFits(y, Step(rules, y, event), i);
      }
    case _ =>
      if At(y, event.i, Free) || At(y, event.i, Locked) || At(y, event.i, Archiving) || At(y, event.i, Closing) {
        ChangeFits(y, Step(rules, y, event), event.i);
      }
  }

  lemma AddFits<G>(rules: Rules<G>, y: System<G>, event: Event<G>)
    requires Fits(y) && event.Add?
    ensures Fits(Step(rules, y, event))
  {
    var y' := Step(rules, y, event);
    forall i | 0 <= i < |y'.slots| ensures SlotFits(y'.slots[i], Lists(y', i)) {
      if i < |y.slots| {
        assert SlotFits(y.slots[i], Lists(y, i));
      }
    }
  }

  /** A step on one entry that leaves it fitting, and takes at most that entry out of the directory. */
  lemma ChangeFits<G>(y: System<G>, y': System<G>, i: nat)
    requires Fits(y) && i < |y.slots| && |y'.slots| == |y.slots| && y'.slots[i].id == y.slots[i].id
    requires forall j :: 0 <= j < |y.slots| && j != i ==> y'.slots[j] == y.slots[j]
    requires y'.directory == y.directory || y'.directory == Unlisted(y, i)
    requires SlotFits(y'.slots[i], Lists(y', i))
    ensures Fits(y')
  {
    forall j | 0 <= j < |y'.slots| ensures SlotFits(y'.slots[j], Lists(y', j)) {
      assert SlotFits(y.slots[j], Lists(y, j));
    }
  }

  lemma {:induction false} RunFits<G>(rules: Rules<G>, y: System<G>, events: seq<Event<G>>)
    requires Fits(y)
    ensures Fits(Run(rules, y, events))
  {
    if events != [] {
      RunFits(rules, y, events[..|events| - 1]);
      StepFits(rules, Run(rules, y, events[..|events| - 1]), events[|events| - 1]);
    }
  }

  /** In every interleaving: an entry whose lock is free is in the directory exactly when it is not closed,
      a closed entry has nothing pending, and an entry is archived at most once, and only if it is closed. */
  lemma {:induction false} ListedIffOpen<G>(rules: Rules<G>, events: seq<Event<G>>, i: nat)
    requires i < |Run(rules, System(map[], []), events).slots|
    ensures var y := Run(rules, System(map[], []), events);
            && (At(y, i, Free) ==> (Lists(y, i) <==> !y.slots[i].entry.closed))
            && |y.slots[i].archived| <= 1
            && (At(y, i, Free) && y.slots[i].archived != [] ==> y.slots[i].entry.closed)
            && (y.slots[i].entry.closed ==> y.slots[i].entry.pending.None? && !Lists(y, i))
  {
    RunFits(rules, System(map[], []), events);
  }

  /** Two open entries whose locks are free never share an identifier. */
  lemma {:induction false} OneOpenEntryPerInstance<G>(rules: Rules<G>, events: seq<Event<G>>, i: nat, j: nat)
    requires var y := Run(rules, System(map[], []), events);
             && At(y, i, Free) && At(y, j, Free) && !y.slots[i].entry.closed && !y.slots[j].entry.closed
             && y.slots[i].id == y.slots[j].id
    ensures i == j
  {
    ListedIffOpen(rules, events, i);
    ListedIffOpen(rules, events, j);
  }

  /** What a step may do to an entry: a closed one stays as it is; a pending record stays until it is archived
      and the entry closed; the game changes only while neither holds; archived records are kept. */
  ghost predicate MayBecome<G>(s: Slot<G>, s': Slot<G>) {
    && s'.id == s.id && s.archived <= s'.archived
    && (s.entry.closed ==> s'.entry == s.entry && s'.archived == s.archived)
    && (s.entry.pending.Some? ==>
          s'.entry == s.entry || (s'.entry == AfterArchive(s.entry, true) && s'.archived == [s.entry.pending.value]))
    && (s'.entry.game != s.entry.game ==> s.lock == Locked && !s.entry.closed && s.entry.pending.None?)
  }

  lemma StepsAreTame<G>(rules: Rules<G>, y: System<G>, event: Event<G>, i: nat)
    requires Fits(y) && i < |y.slots|
    ensures i < |Step(rules, y, event).slots| && MayBecome(y.slots[i], Step(rules, y, event).slots[i])
  {
    assert SlotFits(y.slots[i], Lists(y, i));
    match event
    case Operate(j, op) =>
      if j == i {
        OperationFits(rules, y.slots[i].id, y.slots[i].entry, op);
      }
    case _ =>
  }

  /** The comparison with the listed entry, made before an entry is taken out, never fails: neither when its
      record has been archived nor when an open entry without a record is compensated. */
  lemma {:induction false} RemovalFindsItsEntry<G>(rules: Rules<G>, events: seq<Event<G>>, i: nat)
    requires var y := Run(rules, System(map[], []), events);
             At(y, i, Archiving) || (At(y, i, Locked) && !y.slots[i].entry.closed)
    ensures Lists(Run(rules, System(map[], []), events), i)
  {
    RunFits(rules, System(map[], []), events);
    var y := Run(rules, System(map[], []), events);
    assert SlotFits(y.slots[i], Lists(y, i));
  }
}
