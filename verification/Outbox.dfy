/** The outbox as a log: which versions of an aggregate it holds and which events a command caused. */
module Outbox {
  import opened Text
  import opened Domain
  import opened Store
  import opened Service

  /** The versions of one aggregate's events, in order. */
  function VersionsOf(outbox: seq<OutboxEvent>, aggregate: AggregateType, id: Text): seq<nat> {
    if outbox == [] then []
    else
      var last := outbox[|outbox| - 1].event;
      VersionsOf(outbox[..|outbox| - 1], aggregate, id)
      + if last.aggregate == aggregate && last.id == id then [last.version] else []
  }

  function UpTo(n: nat): (s: seq<nat>)
    ensures |s| == n && forall i :: 0 <= i < n ==> s[i] == i + 1
  {
    seq(n, i => i + 1)
  }

  /** A numbered batch extends its own aggregate's versions and nobody else's. */
  lemma {:induction false} AppendNumbered(outbox: seq<OutboxEvent>, events: seq<Event>, actor: Text, causation: Text,
                                          aggregate: AggregateType, id: Text, from: nat, other: AggregateType,
                                          otherId: Text)
    requires Numbered(events, aggregate, id, from)
    ensures var now := VersionsOf(outbox + OutboxOf(events, actor, causation), other, otherId);
            var before := VersionsOf(outbox, other, otherId);
            if (other, otherId) == (aggregate, id) then before == UpTo(from) ==> now == UpTo(from + |events|)
                else now == before
  {
    var batch := OutboxOf(events, actor, causation);
    if events == [] {
      assert outbox + batch == outbox;
    } else {
      var fewer := events[..|events| - 1];
      assert (outbox + batch)[..|outbox + batch| - 1] == outbox + OutboxOf(fewer, actor, causation);
      AppendNumbered(outbox, fewer, actor, causation, aggregate, id, from, other, otherId);
      assert UpTo(from + |events|) == UpTo(from + |fewer|) + [from + |events|];
    }
  }

  /** The events that one command caused, as the command's result lists them. */
  function CausedBy(outbox: seq<OutboxEvent>, key: LedgerKey): seq<EventRef> {
    if outbox == [] then []
    else
      var last := outbox[|outbox| - 1];
      CausedBy(outbox[..|outbox| - 1], key)
      + if last.actor == key.actor && last.causation == key.commandId then RefsOf([last.event]) else []
  }

  lemma {:induction false} AppendCaused(outbox: seq<OutboxEvent>, events: seq<Event>, actor: Text, causation: Text,
                                        key: LedgerKey)
    ensures CausedBy(outbox + OutboxOf(events, actor, causation), key)
            == CausedBy(outbox, key) + if key == LedgerKey(actor, causation) then RefsOf(events) else []
  {
    var batch := OutboxOf(events, actor, causation);
    if events == [] {
      assert outbox + batch == outbox;
    } else {
      var fewer := events[..|events| - 1];
      assert (outbox + batch)[..|outbox + batch| - 1] == outbox + OutboxOf(fewer, actor, causation);
      AppendCaused(outbox, fewer, actor, causation, key);
      assert RefsOf(events) == RefsOf(fewer) + RefsOf([events[|events| - 1]]);
    }
  }

  /** How many of these events are transitions of some room. */
  function RoomChanges(refs: seq<EventRef>): nat {
    if refs == [] then 0
    else RoomChanges(refs[..|refs| - 1]) + if refs[|refs| - 1].aggregate == AggregateRoom then 1 else 0
  }

  lemma {:induction false} RoomChangesOfAppend(left: seq<EventRef>, right: seq<EventRef>)
    ensures RoomChanges(left + right) == RoomChanges(left) + RoomChanges(right)
  {
    if right == [] {
      assert left + right == left;
    } else {
      assert (left + right)[..|left + right| - 1] == left + right[..|right| - 1];
      RoomChangesOfAppend(left, right[..|right| - 1]);
    }
  }

  lemma {:induction false} RoomChangesOfBatch(events: seq<Event>, aggregate: AggregateType, id: Text, from: nat)
    requires Numbered(events, aggregate, id, from)
    ensures RoomChanges(RefsOf(events)) == if aggregate == AggregateRoom then |events| else 0
  {
    if events != [] {
      var fewer := events[..|events| - 1];
      assert RefsOf(events)[..|events| - 1] == RefsOf(fewer);
      RoomChangesOfBatch(fewer, aggregate, id, from);
    }
  }

  lemma BatchesAppend(left: seq<Event>, right: seq<Event>, actor: Text, causation: Text)
    ensures OutboxOf(left + right, actor, causation) == OutboxOf(left, actor, causation) + OutboxOf(right, actor,
            causation)
  {
  }

  lemma RefsAppend(left: seq<Event>, right: seq<Event>)
    ensures RefsOf(left + right) == RefsOf(left) + RefsOf(right)
  {
  }
}
