/** How the client's commands come to an outcome: what it lets through, and what it makes of the ledger's reply. */
module Settling {
  import opened Bytes
  import opened Text
  import opened Domain
  import opened Store
  import opened Handlers
  import opened Reachable
  import opened RoomClient
  import opened EndToEnd
  import opened Ledger
  import H = HandModel

  // ------------------------------------------------------------------ what the client lets through

  /** A client that is idle and sure of its room takes every command that suits it, and no other: the draft has the next
      sequence of the room and the version given. */
  lemma IdleClientDrafts(c: Client, op: RoomOperation, roomId: Text, expected: nat)
    requires ValidID(roomId) && expected <= MAX_SAFE && (op.CreateRoom? <==> expected == 0)
    ensures var (c', r) := Begin(c, op, roomId, expected);
            && (r.Returned? <==>
                  && !c.inFlight && !c.uncertain && Last(c.lastSequence, roomId) < MAX_SAFE
                  && (c.room.Some? ==> !op.CreateRoom? && c.room.value.roomId == roomId))
            && (r.Returned? ==>
                  && r.value == Draft(op, roomId, Last(c.lastSequence, roomId) + 1, expected)
                  && c' == Client(c.room, c.lastSequence[roomId := r.value.clientSeq], true, false, c.pending))
            && (r.Threw? ==> c' == c)
  {
  }

  /** A named draft becomes the pending request; without a usable name the client is idle again. */
  lemma NamingMakesPending(c: Client, draft: Draft, id: Option<Text>)
    ensures var (c', r) := Name(c, draft, id);
            if id.Some? && ValidID(id.value) then
              r == Returned(Request(id.value, draft)) && c' == c.(pending := Some(Request(id.value, draft)))
            else r.Threw? && c' == c.(inFlight := false)
  {
  }

  /** Joining with the server's last sequence never lowers the room's own, and touches no other room's. */
  lemma JoiningRaisesSequence(c: Client, roomId: Text, last: nat)
    requires last <= MAX_SAFE
    ensures var (c', r) := RaiseSequence(c, roomId, last);
            && r.Returned? && c' == c.(lastSequence := c'.lastSequence)
            && Last(c'.lastSequence, roomId) >= last && Last(c'.lastSequence, roomId) >= Last(c.lastSequence, roomId)
            && Last(c'.lastSequence, roomId) in {last, Last(c.lastSequence, roomId)}
            && (forall k :: k != roomId ==> Last(c'.lastSequence, k) == Last(c.lastSequence, k))
  {
  }

  /** Exactly an unknown outcome is retried, with the very request that is pending. */
  lemma UnknownIsRetried(c: Client)
    ensures var (c', r) := BeginRetry(c);
            && (r.Returned? <==> c.uncertain && c.pending.Some? && !c.inFlight)
            && (r.Returned? ==> c.pending == Some(r.value) && c' == c.(inFlight := true))
            && (r.Threw? ==> c' == c)
  {
  }

  /** A trusted read of a room settles that room's own unknown outcome and no other, and never lowers a sequence. */
  lemma TrustedReadSettles(c: Client, roomId: Text, version: nat, last: nat)
    requires ValidID(roomId) && 1 <= version <= MAX_SAFE && last <= MAX_SAFE
    ensures var (c', r) := Restore(c, roomId, version, last);
            && (r.Returned? <==>
                  !c.inFlight && (c.uncertain ==> c.pending.Some? && c.pending.value.draft.roomId == roomId))
            && (r.Returned? ==>
                  && c'.room == Some(RoomView(roomId, version)) && !c'.uncertain && c'.pending.None? && !c'.inFlight
                  && Last(c'.lastSequence, roomId) >= last
                  && (forall k :: Last(c'.lastSequence, k) >= Last(c.lastSequence, k))
                  && (forall k :: k != roomId ==> Last(c'.lastSequence, k) == Last(c.lastSequence, k)))
            && (r.Threw? ==> c' == c)
  {
  }

  /** Only a client with nothing open forgets, and only the room named. */
  lemma ForgettingIsSafe(c: Client, roomId: Text)
    ensures var (c', r) := Forget(c, roomId);
            && (r.Returned? <==> !c.inFlight && !c.uncertain && c.pending.None?)
            && c' == c.(room := c'.room)
            && (c'.room.None? <==> c.room.None? || (r.Returned? && c.room.value.roomId == roomId))
            && (c'.room.Some? ==> c'.room == c.room)
  {
  }

  // ------------------------------------------------------------------ what the client makes of a reply

  /** Nothing is open any more. */
  predicate Settled(w: World) {
    w.stage.Idle? && !w.client.inFlight && !w.client.uncertain && w.client.pending.None?
  }

  /** The outcome of an accepted result is a view that is adopted, and after a leave no room is held; that of a rejected
      one is a refusal, and the room stays. */
  ghost predicate SettledBy(w: World, w': World, q: Request, result: CommandResult) {
    var view := RoomView(q.draft.roomId, result.aggregateVersion);
    && Settled(w')
    && w'.adopted == (if result.accepted then w.adopted + {(q, view)} else w.adopted)
    && w'.refused == (if result.accepted then w.refused else w.refused + {q})
    && w'.client.room == if !result.accepted then w.client.room
                         else if q.draft.op.LeaveRoom? then None else Some(view)
  }

  lemma TruthfulReplySettles(setting: Setting, w: World, q: Request, result: CommandResult)
    requires Honest(setting, w) && w.stage.Awaiting? && w.stage.request == q && (q, result) in w.replies
    requires result.aggregateVersion <= MAX_SAFE
    ensures SettledBy(w, Received(w, WireOf(q, result, FAILURE_CODE)), q, result)
  {
    assert Truthful(setting, w.db.ledger, q, result);
    FailureCodeIsNotBlank();
    if result.accepted {
      AcceptedVersionIsNext(setting, w, q);
    }
  }

  lemma FailureCodeIsNotBlank()
    ensures !Blank(FAILURE_CODE)
  {
    assert FAILURE_CODE[0] == 82 && FAILURE_CODE[|FAILURE_CODE| - 1] == 68;
  }

  lemma AcceptedVersionIsNext(setting: Setting, w: World, q: Request)
    requires Honest(setting, w) && q in w.sent && AcceptedIn(w.db.ledger, KeyOfRequest(setting, q))
    ensures w.db.ledger[KeyOfRequest(setting, q)].result.value.aggregateVersion == q.draft.expectedVersion + 1
  {
    LedgerEntry(w.db, KeyOfRequest(setting, q));
    assert KnownAs(setting, w.db.ledger, q);
  }

  /** When a reply with the ledger's result reaches the client that awaits it, the outcome is settled: adopted exactly
      if the ledger accepted, refused exactly if it rejected. */
  lemma {:induction false} LedgerReplySettles(setting: Setting, db: Database, moves: seq<Move>, q: Request,
                                              result: CommandResult)
    requires Consistent(db) && Runs(setting, Beginning(db), moves)
    requires var w := WorldAfter(setting, Beginning(db), moves);
             && w.stage.Awaiting? && w.stage.request == q && (q, result) in w.replies
             && result.aggregateVersion <= MAX_SAFE
    ensures var w := WorldAfter(setting, Beginning(db), moves);
            && SettledBy(w, Next(setting, w, ReplyArrives(q, result)), q, result)
            && result.accepted == AcceptedIn(w.db.ledger, KeyOfRequest(setting, q))
  {
    RunsKeepAll(setting, Beginning(db), moves);
    var w := WorldAfter(setting, Beginning(db), moves);
    TruthfulReplySettles(setting, w, q, result);
    assert Truthful(setting, w.db.ledger, q, result);
  }

  /** One more move. */
  lemma {:induction false} RunsOn(setting: Setting, w: World, moves: seq<Move>, m: Move)
    requires Runs(setting, w, moves) && Possible(setting, WorldAfter(setting, w, moves), m)
    ensures Runs(setting, w, moves + [m])
    ensures WorldAfter(setting, w, moves + [m]) == Next(setting, WorldAfter(setting, w, moves), m)
  {
    var all := moves + [m];
    assert all[..|moves|] == moves;
    forall i | 0 <= i < |all| ensures Possible(setting, WorldAfter(setting, w, all[..i]), all[i]) {
      if i < |moves| {
        assert all[..i] == moves[..i];
      }
    }
  }

  /** An unknown outcome never stays unknown for want of a way out: from every world a run can come to, retrying the
      pending request, its arrival at the service and the arrival of the reply settle it as the ledger says. */
  lemma {:induction false} RetrySettles(setting: Setting, db: Database, moves: seq<Move>, q: Request, issued: int,
                                        expires: int, env: Environment, result: CommandResult)
    requires Consistent(db) && Runs(setting, Beginning(db), moves)
    requires var w := WorldAfter(setting, Beginning(db), moves);
             && w.client.uncertain && !w.client.inFlight && w.client.pending == Some(q)
             && Reply(w.db, DeliveryFor(setting, q, issued, expires, env)) == Ok(result)
    requires H.NeverZero(env.commitOf) && env.payloadDigest == setting.digest && result.aggregateVersion <= MAX_SAFE
    ensures var w := WorldAfter(setting, Beginning(db), moves);
            var served := Next(setting, Next(setting, w, CallRetry), CommandArrives(q, issued, expires, env));
            SettledBy(served, Next(setting, served, ReplyArrives(q, result)), q, result)
  {
    var w := WorldAfter(setting, Beginning(db), moves);
    RunsKeepAll(setting, Beginning(db), moves);
    var arrives := CommandArrives(q, issued, expires, env);
    RunsOn(setting, Beginning(db), moves, CallRetry);
    RetryAwaits(setting, w, q, arrives, result);
    RunsOn(setting, Beginning(db), moves + [CallRetry], arrives);
    LedgerReplySettles(setting, db, moves + [CallRetry] + [arrives], q, result);
  }

  lemma RetryAwaits(setting: Setting, w: World, q: Request, arrives: Move, result: CommandResult)
    requires Bookkeeping(w) && w.client.uncertain && !w.client.inFlight && w.client.pending == Some(q)
    requires arrives.CommandArrives? && arrives.request == q
    requires Reply(w.db, DeliveryFor(setting, q, arrives.issued, arrives.expires, arrives.env)) == Ok(result)
    requires H.NeverZero(arrives.env.commitOf) && arrives.env.payloadDigest == setting.digest
    ensures Possible(setting, Next(setting, w, CallRetry), arrives)
    ensures var served := Next(setting, Next(setting, w, CallRetry), arrives);
            served.stage == Awaiting(q, true) && (q, result) in served.replies
  {
  }
}
