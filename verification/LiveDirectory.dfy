/** The directory of live games. An operation looks its entry up first and locks it afterwards, so by then the
    entry may be closed and the directory may hold another one under the same identifier. */
module LiveDirectory {
  import opened Bytes
  import opened Text
  import opened Identity
  import opened LiveGame

  class LiveEntry<G> {
    const descriptor: Descriptor
    var game: G
    var pending: Option<FinalRecord>
    var closed: bool
    var quarantined: bool

    function Value(): Entry<G>
      reads this
    {
      Entry(game, descriptor, pending, closed, quarantined)
    }

    constructor (game: G, descriptor: Descriptor)
      ensures Value() == Entry(game, descriptor, None, false, false)
    {
      this.game, this.descriptor := game, descriptor;
      pending, closed, quarantined := None, false, false;
    }
  }

  class Directory<G> {
    const rules: Rules<G>
    var entries: map<Text, LiveEntry<G>>

    constructor (rules: Rules<G>)
      ensures this.rules == rules && entries == map[]
    {
      this.rules, entries := rules, map[];
    }

    /** Whether the directory's entry for `id` is this one. */
    predicate Lists(id: Text, entry: LiveEntry<G>)
      reads this
    {
      id in entries && entries[id] == entry
    }

    /** `expected` is the caller's description of the game, `actual` the game's own. */
    method Add(id: Text, expected: Descriptor, actual: Descriptor, game: G) returns (r: Answer<LiveEntry<G>>)
      modifies this
      ensures r.Answered? <==> ValidDescriptor(expected) && actual == expected && ValidId(id) && id !in old(entries)
      ensures r.Answered? ==>
                && fresh(r.value) && r.value.Value() == Entry(game, expected, None, false, false)
                && entries == old(entries)[id := r.value]
      ensures r.Failed? ==> entries == old(entries)
    {
      if !ValidDescriptor(expected) || !ValidDescriptor(actual) || actual != expected || !ValidId(id) {
        return Failed(InvalidArgument);
      }
      if id in entries {
        return Failed(InstanceExists);
      }
      var entry := new LiveEntry(game, expected);
      entries := entries[id := entry];
      return Answered(entry);
    }

    method Lookup(id: Text) returns (r: Answer<LiveEntry<G>>)
      ensures r == if !ValidId(id) then Failed(InvalidArgument)
                   else if id in entries then Answered(entries[id]) else Failed(InstanceNotFound)
    {
      if !ValidId(id) {
        return Failed(InvalidArgument);
      }
      if id !in entries {
        return Failed(InstanceNotFound);
      }
      return Answered(entries[id]);
    }

    /** archivePendingLocked; `archived` is what the archive answers. */
    method ArchivePending(id: Text, entry: LiveEntry<G>, archived: bool) returns (ok: bool)
      modifies this, entry
      ensures ok == (old(entry.pending.Some?) && archived)
      ensures entry.Value() == AfterArchive(old(entry.Value()), ok)
      ensures entries == if ok && old(Lists(id, entry)) then old(entries) - {id} else old(entries)
    {
      if entry.pending.None? || !archived {
        return false;
      }
      if id in entries && entries[id] == entry {
        entries := entries - {id};
      }
      entry.pending := None;
      entry.closed := true;
      return true;
    }

    /** What any operation leaves behind: its own part, then the archive's answer if it came to that. */
    ghost predicate Leaves<T>(held: Held<G, T>, archived: bool, now: Entry<G>, listed: bool, id: Text,
                              before: map<Text, LiveEntry<G>>, after: map<Text, LiveEntry<G>>)
    {
      && now == AfterArchive(held.entry, held.archiving && archived)
      && after == if held.archiving && archived && listed then before - {id} else before
    }

    method Apply(id: Text, entry: LiveEntry<G>, command: LiveCommand, archived: bool)
      returns (r: Answer<LiveOutcome>, archiveFailed: bool)
      modifies this, entry
      ensures var held := Applied(rules, id, old(entry.Value()), command);
              && r == held.answer && archiveFailed == (held.archiving && !archived)
              && Leaves(held, archived, entry.Value(), old(Lists(id, entry)), id, old(entries), entries)
    {
      if entry.closed || entry.quarantined {
        return Failed(InstanceNotFound), false;
      }
      if entry.pending.Some? {
        return Failed(FinalizationPending), false;
      }
      if !HasPosition(entry.descriptor, command.actor) {
        return Failed(InvalidArgument), false;
      }
      var (game, answer) := rules.apply(entry.game, command);
      entry.game := game;
      if answer.Failed? {
        return answer, false;
      }
      var outcome := answer.value;
      if !outcome.terminal {
        return if outcome.finalPayload != [] then Failed(VerificationFailed) else answer, false;
      }
      var record := NewFinalRecord(id, entry.descriptor, Completed, outcome.version, outcome.finalPayload);
      if record.Failed? {
        return Failed(record.error), false;
      }
      entry.pending := Some(record.value);
      var ok := ArchivePending(id, entry, archived);
      return answer, !ok;
    }

    /** The candidate is computed beside the published game, which changes only when persisting succeeded. */
    method ApplyCommitted(id: Text, entry: LiveEntry<G>, command: LiveCommand, persist: Persistence, archived: bool)
      returns (r: Answer<LiveOutcome>, archiveFailed: bool)
      modifies this, entry
      ensures var held := Committed(rules, id, old(entry.Value()), command, persist);
              && r == held.answer && archiveFailed == (held.archiving && !archived)
              && Leaves(held, archived, entry.Value(), old(Lists(id, entry)), id, old(entries), entries)
    {
      if entry.closed || entry.quarantined || entry.pending.Some? {
        return Failed(FinalizationPending), false;
      }
      if !HasPosition(entry.descriptor, command.actor) || !rules.cloneable(entry.game) {
        return Failed(InvalidArgument), false;
      }
      var (candidate, answer) := rules.apply(entry.game, command);
      if answer.Failed? {
        return answer, false;
      }
      var outcome, final := answer.value, None;
      if !outcome.terminal && outcome.finalPayload != [] {
        return Failed(VerificationFailed), false;
      }
      if outcome.terminal {
        var record := NewFinalRecord(id, entry.descriptor, Completed, outcome.version, outcome.finalPayload);
        if record.Failed? {
          return Failed(record.error), false;
        }
        final := Some(record.value);
      }
      if persist != Persisted {
        entry.quarantined := true;
        return Failed(VerificationFailed), false;
      }
      entry.game := candidate;
      archiveFailed := false;
      if final.Some? {
        entry.pending := final;
        var ok := ArchivePending(id, entry, archived);
        archiveFailed := !ok;
      }
      return answer, archiveFailed;
    }

    method View(entry: LiveEntry<G>, viewer: nat, publicOnly: bool) returns (r: Answer<GameView>)
      ensures r == Viewed(rules, entry.Value(), viewer, publicOnly)
    {
      if entry.closed || entry.quarantined {
        return Failed(InstanceNotFound);
      }
      if !publicOnly && !HasPosition(entry.descriptor, viewer) {
        return Failed(InvalidArgument);
      }
      return rules.view(entry.game, viewer, publicOnly);
    }

    method Abort(id: Text, entry: LiveEntry<G>, reason: Text, archived: bool)
      returns (r: Answer<FinalRecord>, archiveFailed: bool)
      modifies this, entry
      ensures var held := AbortedBy(rules, id, old(entry.Value()), reason);
              && r == held.answer && archiveFailed == (held.archiving && !archived)
              && Leaves(held, archived, entry.Value(), old(Lists(id, entry)), id, old(entries), entries)
    {
      if entry.closed {
        return Failed(InstanceNotFound), false;
      }
      if entry.pending.Some? {
        return Failed(FinalizationPending), false;
      }
      if !ValidId(reason) {
        return Failed(InvalidArgument), false;
      }
      var (game, answer) := rules.abort(entry.game, reason);
      entry.game := game;
      if answer.Failed? {
        return Failed(answer.error), false;
      }
      var record := NewFinalRecord(id, entry.descriptor, Aborted, answer.value.version, answer.value.finalPayload);
      if record.Failed? {
        return record, false;
      }
      entry.pending := Some(record.value);
      var ok := ArchivePending(id, entry, archived);
      return record, !ok;
    }

    method RetryArchive(id: Text, entry: LiveEntry<G>, archived: bool)
      returns (r: Answer<FinalRecord>, archiveFailed: bool)
      modifies this, entry
      ensures var held := Retried(old(entry.Value()));
              && r == held.answer && archiveFailed == (held.archiving && !archived)
              && Leaves(held, archived, entry.Value(), old(Lists(id, entry)), id, old(entries), entries)
    {
      if entry.closed {
        return Failed(InstanceNotFound), false;
      }
      if entry.pending.None? {
        return Failed(NotFinalizing), false;
      }
      var record := entry.pending.value;
      var ok := ArchivePending(id, entry, archived);
      return Answered(record), !ok;
    }

    /** Both locks are held. */
    method RemoveForCompensation(id: Text, entry: LiveEntry<G>) returns (r: Answer<()>)
      modifies this, entry
      ensures r.Answered? <==> !old(entry.closed) && old(entry.pending.None?) && old(Lists(id, entry))
      ensures entry.Value() == if r.Answered? then old(entry.Value()).(closed := true) else old(entry.Value())
      ensures entries == if r.Answered? then old(entries) - {id} else old(entries)
    {
      if entry.closed || entry.pending.Some? {
        return Failed(FinalizationPending);
      }
      if id !in entries || entries[id] != entry {
        return Failed(InstanceNotFound);
      }
      entries := entries - {id};
      entry.closed := true;
      return Answered(());
    }
  }
}
