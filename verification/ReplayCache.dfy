/** The single-flight cache of replies to live requests. Entries are referred to by number, in the order in
    which their executions started; an entry is ready when its execution has finished. */
module ReplayCache {
  import opened Bytes
  import opened Text
  import opened Sizes

  /** The parts of a request that its cache key is made of. */
  datatype Keyed = Keyed(actor: Text, aggregate: Text, request: Text)

  function CacheKey(q: Keyed): (key: Text)
    ensures key != []
  {
    q.actor + [0] + q.aggregate + [0] + q.request
  }

  /** What the dispatcher's validation asks of these parts. */
  predicate ValidRequest(q: Keyed) {
    && !Blank(q.actor)
    && q.request == Trim(q.request) && 1 <= |q.request| <= 128
    && q.aggregate == Trim(q.aggregate) && 1 <= |q.aggregate| <= 128
  }

  predicate Separable(part: Text) {
    0 !in part
  }

  predicate AllSeparable(q: Keyed) {
    Separable(q.actor) && Separable(q.aggregate) && Separable(q.request)
  }

  lemma {:induction false} FirstSeparator(a: Text, b: Text, x: Text, y: Text)
    requires Separable(a) && Separable(b) && a + [0] + x == b + [0] + y
    ensures a == b && x == y
  {
    if a == [] || b == [] {
      assert (a + [0] + x)[0] == (b + [0] + y)[0];
      assert a == b;
      assert x == (a + [0] + x)[1..] && y == (b + [0] + y)[1..];
    } else {
      assert (a + [0] + x)[0] == a[0] && (b + [0] + y)[0] == b[0];
      assert (a + [0] + x)[1..] == a[1..] + [0] + x && (b + [0] + y)[1..] == b[1..] + [0] + y;
      FirstSeparator(a[1..], b[1..], x, y);
      assert a == [a[0]] + a[1..] && b == [b[0]] + b[1..];
    }
  }

  /** Requests whose actor and aggregate hold no separator have different keys. */
  lemma KeysAreDistinct(p: Keyed, q: Keyed)
    requires Separable(p.actor) && Separable(q.actor) && Separable(p.aggregate) && Separable(q.aggregate)
    ensures CacheKey(p) == CacheKey(q) <==> p == q
  {
    var x, y := p.aggregate + [0] + p.request, q.aggregate + [0] + q.request;
    assert CacheKey(p) == p.actor + [0] + x;
    assert CacheKey(q) == q.actor + [0] + y;
    if CacheKey(p) == CacheKey(q) {
      FirstSeparator(p.actor, q.actor, x, y);
      FirstSeparator(p.aggregate, q.aggregate, p.request, q.request);
    }
  }

  /** A key has two separators and those inside its parts. */
  lemma SeparatorsAdd(q: Keyed)
    ensures multiset(CacheKey(q))[0]
            == 2 + multiset(q.actor)[0] + multiset(q.aggregate)[0] + multiset(q.request)[0]
  {
  }

  function FirstZero(part: Text): (i: nat)
    requires !Separable(part)
    ensures i < |part| && part[i] == 0
  {
    if part[0] == 0 then 0 else FirstZero(part[1..]) + 1
  }

  /** Another request with the same key: one inner separator changes places with one of the two outer ones. */
  function Double(q: Keyed): Keyed
    requires !AllSeparable(q)
  {
    if !Separable(q.actor) then
      var i := FirstZero(q.actor);
      Keyed(q.actor[..i], q.actor[i + 1..] + [0] + q.aggregate, q.request)
    else if !Separable(q.aggregate) then
      var i := FirstZero(q.aggregate);
      Keyed(q.actor, q.aggregate[..i], q.aggregate[i + 1..] + [0] + q.request)
    else
      var i := FirstZero(q.request);
      Keyed(q.actor, q.aggregate + [0] + q.request[..i], q.request[i + 1..])
  }

  lemma CutAtZero(part: Text, i: nat)
    requires i < |part| && part[i] == 0
    ensures part == part[..i] + [0] + part[i + 1..]
  {
  }

  lemma DoubleSharesKey(q: Keyed)
    requires !AllSeparable(q)
    ensures Double(q) != q && CacheKey(Double(q)) == CacheKey(q)
  {
    if !Separable(q.actor) {
      CutAtZero(q.actor, FirstZero(q.actor));
    } else if !Separable(q.aggregate) {
      CutAtZero(q.aggregate, FirstZero(q.aggregate));
    } else {
      CutAtZero(q.request, FirstZero(q.request));
    }
  }

  /** A key determines its request exactly when no part of the request holds a separator. */
  lemma KeyDeterminesRequestIff(q: Keyed)
    ensures (forall p :: CacheKey(p) == CacheKey(q) ==> p == q) <==> AllSeparable(q)
  {
    if AllSeparable(q) {
      forall p | CacheKey(p) == CacheKey(q) ensures p == q {
        SeparatorsAdd(p);
        SeparatorsAdd(q);
        assert AllSeparable(p);
        KeysAreDistinct(p, q);
      }
    } else {
      DoubleSharesKey(q);
    }
  }

  /** Validation lets inner separators through: for every actor that passes it there are two different valid
      requests with one key. They share an entry and are told apart by their digests only. */
  lemma SeparatorsCanShareKey(actor: Text)
    requires !Blank(actor)
    ensures var p, q := Keyed(actor, [65, 0, 66], [67]), Keyed(actor, [65], [66, 0, 67]);
            ValidRequest(p) && ValidRequest(q) && p != q && CacheKey(p) == CacheKey(q)
  {
    assert CacheKey(Keyed(actor, [65, 0, 66], [67])) == actor + [0, 65, 0, 66, 0, 67];
    assert CacheKey(Keyed(actor, [65], [66, 0, 67])) == actor + [0, 65, 0, 66, 0, 67];
  }

  datatype Outcome = Response(payload: Text) | Failure(error: Text)

  datatype Flight = Flight(key: Text, digest: Block, expires: int, outcome: Option<Outcome>)

  datatype Cache = Cache(entries: map<Text, nat>, flights: seq<Flight>)

  datatype Arrival = Conflict | Joined(flight: nat) | Started(flight: nat)

  const EMPTY_CACHE := Cache(map[], [])

  /** Keys lead to their own entries. No key is empty: it holds two separators. */
  ghost predicate WellIndexed(c: Cache) {
    forall k :: k in c.entries ==> k != [] && c.entries[k] < |c.flights| && c.flights[c.entries[k]].key == k
  }

  predicate Ready(flights: seq<Flight>, i: nat) {
    i < |flights| && flights[i].outcome.Some?
  }

  predicate Expired(flights: seq<Flight>, i: nat, now: int) {
    Ready(flights, i) && now >= flights[i].expires
  }

  function Pruned(c: Cache, now: int): map<Text, nat> {
    map k | k in c.entries && !Expired(c.flights, c.entries[k], now) :: c.entries[k]
  }

  predicate Earliest(flights: seq<Flight>, entries: map<Text, nat>, victim: Text) {
    && victim in entries && Ready(flights, entries[victim])
    && forall k :: k in entries && Ready(flights, entries[k]) ==>
         flights[entries[victim]].expires <= flights[entries[k]].expires
  }

  /** Some ready entry that expires first is gone, or nothing is when none is ready. */
  ghost predicate Evicted(flights: seq<Flight>, entries: map<Text, nat>, rest: map<Text, nat>) {
    || (rest == entries && forall k :: k in entries ==> !Ready(flights, entries[k]))
    || (exists victim :: Earliest(flights, entries, victim) && rest == entries - {victim})
  }

  /** The first part of Do, up to running the function or waiting. */
  ghost predicate Arrives(c: Cache, limit: nat, key: Text, digest: Block, now: int, expires: int, c': Cache,
                          a: Arrival) {
    var kept := Pruned(c, now);
    if key in kept && kept[key] < |c.flights| then
      && c' == c.(entries := kept)
      && a == if c.flights[kept[key]].digest == digest then Joined(kept[key]) else Conflict
    else
      && a == Started(|c.flights|) && c'.flights == c.flights + [Flight(key, digest, expires, None)]
      && key in c'.entries && c'.entries[key] == |c.flights|
      && var rest := c'.entries - {key};
        if |kept| >= limit then Evicted(c.flights, kept, rest) else rest == kept
  }

  /** The last part of Do: an error takes the entry out, and in any case the entry becomes ready. */
  function Finished(c: Cache, i: nat, outcome: Outcome): Cache
    requires i < |c.flights|
  {
    Cache(if outcome.Failure? then c.entries - {c.flights[i].key} else c.entries,
          c.flights[i := c.flights[i].(outcome := Some(outcome))])
  }

  class ReplayCache {
    const ttl: int
    const limit: nat
    var entries: map<Text, nat>
    var flights: seq<Flight>

    function State(): Cache
      reads this
    {
      Cache(entries, flights)
    }

    constructor (ttl: int, limit: nat)
      ensures State() == EMPTY_CACHE && this.ttl == ttl && this.limit == limit
    {
      this.ttl, this.limit, entries, flights := ttl, limit, map[], [];
    }

    method Prune(now: int)
      modifies this`entries
      ensures entries == Pruned(old(State()), now)
    {
      var left := entries.Keys;
      while left != {}
        invariant left <= old(entries).Keys
        invariant entries == map k | k in old(entries)
                  && (k in left || !Expired(flights, old(entries)[k], now)) :: old(entries)[k]
        decreases |left|
      {
        var key :| key in left;
        var entry := entries[key];
        if entry < |flights| && flights[entry].outcome.Some? && now >= flights[entry].expires {
          entries := entries - {key};
        }
        left := left - {key};
      }
    }

    /** The empty key stands for "nothing selected yet". */
    method Evict()
      requires WellIndexed(State())
      modifies this`entries
      ensures Evicted(flights, old(entries), entries)
    {
      var selected: Text, earliest := [], 0;
      var left := entries.Keys;
      while left != {}
        invariant left <= entries.Keys
        invariant selected == [] ==> forall k :: k in entries && k !in left ==> !Ready(flights, entries[k])
        invariant selected != [] ==>
                    && selected in entries && Ready(flights, entries[selected])
                    && earliest == flights[entries[selected]].expires
                    && forall k :: k in entries && k !in left && Ready(flights, entries[k]) ==>
                         earliest <= flights[entries[k]].expires
        decreases |left|
      {
        var key :| key in left;
        var entry := flights[entries[key]];
        if entry.outcome.Some? && (selected == [] || entry.expires < earliest) {
          selected, earliest := key, entry.expires;
        }
        left := left - {key};
      }
      if selected != [] {
        assert Earliest(flights, entries, selected);
        entries := entries - {selected};
      }
    }

    /** The clock is read twice: `now` for pruning and `later` for the new entry. */
    method Arrive(key: Text, digest: Block, now: int, later: int) returns (a: Arrival)
      requires WellIndexed(State()) && key != []
      modifies this
      ensures Arrives(old(State()), limit, key, digest, now, later + ttl, State(), a)
    {
      Prune(now);
      if key in entries {
        var existing := entries[key];
        return if flights[existing].digest != digest then Conflict else Joined(existing);
      }
      a := Start(key, digest, later);
    }

    /** The first request for a key makes room if need be and becomes the execution. */
    method Start(key: Text, digest: Block, later: int) returns (a: Arrival)
      requires WellIndexed(State()) && key !in entries
      modifies this
      ensures a == Started(|old(flights)|) && flights == old(flights) + [Flight(key, digest, later + ttl, None)]
      ensures key in entries && entries[key] == |old(flights)|
      ensures if |old(entries)| >= limit then Evicted(old(flights), old(entries), entries - {key})
              else entries - {key} == old(entries)
    {
      MakeRoom();
      ghost var rest := entries;
      var started := |flights|;
      flights := flights + [Flight(key, digest, later + ttl, None)];
      entries := entries[key := started];
      assert entries - {key} == rest;
      return Started(started);
    }

    method MakeRoom()
      requires WellIndexed(State())
      modifies this`entries
      ensures if |old(entries)| >= limit then Evicted(flights, old(entries), entries) else entries == old(entries)
      ensures entries.Keys <= old(entries).Keys
    {
      if |entries| >= limit {
        Evict();
      }
    }

    method Finish(i: nat, outcome: Outcome)
      requires i < |flights|
      modifies this
      ensures State() == Finished(old(State()), i, outcome)
    {
      if outcome.Failure? {
        entries := entries - {flights[i].key};
      }
      flights := flights[i := flights[i].(outcome := Some(outcome))];
    }
  }

  // ------------------------------------------------------------------ every interleaving

  /** The cache, and the most executions there have been at once. */
  datatype World = World(cache: Cache, peak: nat)

  function InFlight(c: Cache): set<nat> {
    set i: nat | i < |c.flights| && c.flights[i].outcome.None?
  }

  function Observed(c: Cache, peak: nat): World {
    World(c, if |InFlight(c)| > peak then |InFlight(c)| else peak)
  }

  /** A request arrives, or the function of an execution in flight returns. */
  ghost predicate Next(w: World, w': World, limit: nat) {
    && w' == Observed(w'.cache, w.peak)
    && ((exists key, digest, now, expires, a ::
         key != [] && Arrives(w.cache, limit, key, digest, now, expires, w'.cache, a))
        || (exists i, outcome :: i in InFlight(w.cache) && w'.cache == Finished(w.cache, i, outcome)))
  }

  /** An execution in flight is in the map under its key: nothing prunes, evicts or replaces it. */
  ghost predicate SingleFlight(c: Cache) {
    && WellIndexed(c)
    && forall i :: 0 <= i < |c.flights| && c.flights[i].outcome.None? ==>
       c.flights[i].key in c.entries && c.entries[c.flights[i].key] == i
  }

  lemma OneExecutionPerKey(c: Cache, i: nat, j: nat)
    requires SingleFlight(c) && i in InFlight(c) && j in InFlight(c) && c.flights[i].key == c.flights[j].key
    ensures i == j
  {
  }

  lemma PruningKeepsSingleFlight(c: Cache, now: int)
    requires SingleFlight(c)
    ensures SingleFlight(c.(entries := Pruned(c, now)))
  {
  }

  lemma EvictionKeepsSingleFlight(c: Cache, rest: map<Text, nat>)
    requires SingleFlight(c) && Evicted(c.flights, c.entries, rest)
    ensures SingleFlight(c.(entries := rest))
  {
  }

  lemma StartKeepsSingleFlight(c: Cache, c': Cache, key: Text, flight: Flight)
    requires SingleFlight(c) && key != [] && key !in c.entries && flight.key == key
    requires c'.flights == c.flights + [flight] && key in c'.entries && c'.entries[key] == |c.flights|
             && c'.entries - {key} == c.entries
    ensures SingleFlight(c')
  {
    assert forall k :: k in c'.entries && k != key ==> k in c.entries && c'.entries[k] == c.entries[k] by {
      assert forall k :: k in c'.entries && k != key ==>
             k in c'.entries - {key} && (c'.entries - {key})[k] == c'.entries[k];
    }
    assert forall k :: k in c.entries ==> k in c'.entries - {key};
  }

  lemma ArrivalKeepsSingleFlight(c: Cache, limit: nat, key: Text, digest: Block, now: int, expires: int, c': Cache,
                                 a: Arrival)
    requires SingleFlight(c) && key != [] && Arrives(c, limit, key, digest, now, expires, c', a)
    ensures SingleFlight(c')
  {
    var kept := Pruned(c, now);
    PruningKeepsSingleFlight(c, now);
    if key !in kept {
      var rest := c'.entries - {key};
      var pruned := c.(entries := kept);
      if |kept| >= limit {
        EvictionKeepsSingleFlight(pruned, rest);
      }
      StartKeepsSingleFlight(c.(entries := rest), c', key, Flight(key, digest, expires, None));
    }
  }

  /** Finishing takes out the finished execution's own entry and no other. */
  lemma FinishKeepsSingleFlight(c: Cache, i: nat, outcome: Outcome)
    requires SingleFlight(c) && i in InFlight(c)
    ensures SingleFlight(Finished(c, i, outcome))
    ensures var gone := c.entries.Keys - Finished(c, i, outcome).entries.Keys;
            gone == if outcome.Failure? then {c.flights[i].key} else {}
    ensures c.entries[c.flights[i].key] == i
  {
  }

  // ------------------------------------------------------------------ size

  ghost predicate Bounded(w: World, limit: nat) {
    && |InFlight(w.cache)| <= w.peak
    && |w.cache.entries| <= if limit > w.peak then limit else w.peak
  }

  /** Entries that are all in flight are no more than the executions in flight. */
  lemma AllInFlight(c: Cache)
    requires SingleFlight(c) && forall k :: k in c.entries ==> !Ready(c.flights, c.entries[k])
    ensures |c.entries| <= |InFlight(c)|
  {
    InjectiveSize(c.entries, InFlight(c));
  }

  lemma StartedInFlight(c: Cache, c': Cache, flight: Flight)
    requires c'.flights == c.flights + [flight] && flight.outcome.None?
    ensures |InFlight(c')| == |InFlight(c)| + 1
  {
    assert InFlight(c') == InFlight(c) + {|c.flights|};
  }

  /** Making room: what is left is below the limit, or one fewer than before, or all in flight. */
  lemma RoomMade(c: Cache, kept: map<Text, nat>, rest: map<Text, nat>, limit: nat)
    requires SingleFlight(c.(entries := kept)) && if |kept| >= limit then Evicted(c.flights, kept, rest)
             else rest == kept
    ensures |rest| < limit || |rest| == |kept| - 1 || |rest| <= |InFlight(c)|
  {
    if |kept| >= limit {
      if rest == kept && forall k :: k in kept ==> !Ready(c.flights, kept[k]) {
        AllInFlight(c.(entries := kept));
        assert InFlight(c.(entries := kept)) == InFlight(c);
      } else {
        var victim :| Earliest(c.flights, kept, victim) && rest == kept - {victim};
        OneKeyLess(kept, victim);
      }
    }
  }

  lemma ArrivalKeepsBound(w: World, w': World, limit: nat, key: Text, digest: Block, now: int, expires: int, a: Arrival)
    requires SingleFlight(w.cache) && Bounded(w, limit) && key != []
    requires Arrives(w.cache, limit, key, digest, now, expires, w'.cache, a) && w' == Observed(w'.cache, w.peak)
    ensures Bounded(w', limit)
  {
    var c, c', kept := w.cache, w'.cache, Pruned(w.cache, now);
    FewerKeys(kept, c.entries);
    PruningKeepsSingleFlight(c, now);
    if key in kept {
      assert InFlight(c') == InFlight(c);
    } else {
      var rest := c'.entries - {key};
      RoomMade(c, kept, rest, limit);
      OneKeyLess(c'.entries, key);
      StartedInFlight(c, c', Flight(key, digest, expires, None));
    }
  }

  lemma FinishKeepsBound(w: World, w': World, limit: nat, i: nat, outcome: Outcome)
    requires Bounded(w, limit) && i in InFlight(w.cache) && w'.cache == Finished(w.cache, i, outcome)
             && w' == Observed(w'.cache, w.peak)
    ensures Bounded(w', limit)
  {
    assert InFlight(w'.cache) == InFlight(w.cache) - {i};
    FewerKeys(w'.cache.entries, w.cache.entries);
  }

  // ------------------------------------------------------------------ whole runs

  /** Later, an entry is the same but for the outcome, and an outcome never changes. */
  ghost predicate FlightsKept(c: Cache, c': Cache) {
    && |c.flights| <= |c'.flights|
    && forall i :: 0 <= i < |c.flights| ==>
         c'.flights[i].(outcome := None) == c.flights[i].(outcome := None)
         && (c.flights[i].outcome.Some? ==> c'.flights[i].outcome == c.flights[i].outcome)
  }

  lemma NextKeepsAll(w: World, w': World, limit: nat)
    requires SingleFlight(w.cache) && Bounded(w, limit) && Next(w, w', limit)
    ensures SingleFlight(w'.cache) && Bounded(w', limit) && FlightsKept(w.cache, w'.cache)
  {
    if key, digest, now, expires, a :| key != [] && Arrives(w.cache, limit, key, digest, now, expires, w'.cache, a) {
      ArrivalKeepsSingleFlight(w.cache, limit, key, digest, now, expires, w'.cache, a);
      ArrivalKeepsBound(w, w', limit, key, digest, now, expires, a);
    } else {
      var i, outcome :| i in InFlight(w.cache) && w'.cache == Finished(w.cache, i, outcome);
      FinishKeepsSingleFlight(w.cache, i, outcome);
      FinishKeepsBound(w, w', limit, i, outcome);
    }
  }

  ghost predicate Moves(ws: seq<World>, t: nat, limit: nat) {
    t + 1 < |ws| && Next(ws[t], ws[t + 1], limit)
  }

  ghost predicate Trace(ws: seq<World>, limit: nat) {
    && ws != [] && ws[0] == World(EMPTY_CACHE, 0)
    && forall t :: 0 <= t < |ws| - 1 ==> Moves(ws, t, limit)
  }

  /** At every moment of every interleaving executions in flight are in the map under their keys, so there is
      at most one a key, and the map is no larger than the limit or the peak of executions, whichever is more. */
  lemma {:induction false} SingleFlightAlways(ws: seq<World>, limit: nat, t: nat)
    requires Trace(ws, limit) && t < |ws|
    ensures SingleFlight(ws[t].cache) && Bounded(ws[t], limit)
  {
    if t == 0 {
      assert InFlight(EMPTY_CACHE) == {};
    } else {
      SingleFlightAlways(ws, limit, t - 1);
      assert Moves(ws, t - 1, limit);
      NextKeepsAll(ws[t - 1], ws[t], limit);
    }
  }

  lemma FlightsKeptIsTransitive(a: Cache, b: Cache, c: Cache)
    requires FlightsKept(a, b) && FlightsKept(b, c)
    ensures FlightsKept(a, c)
  {
  }

  lemma StepKeepsFlights(ws: seq<World>, limit: nat, t: nat)
    requires Trace(ws, limit) && t + 1 < |ws|
    ensures FlightsKept(ws[t].cache, ws[t + 1].cache)
  {
    SingleFlightAlways(ws, limit, t);
    assert Moves(ws, t, limit);
    NextKeepsAll(ws[t], ws[t + 1], limit);
  }

  lemma {:induction false} FlightsKeptForever(ws: seq<World>, limit: nat, t: nat, u: nat)
    requires Trace(ws, limit) && t <= u < |ws|
    ensures FlightsKept(ws[t].cache, ws[u].cache)
    decreases u
  {
    if t < u {
      FlightsKeptForever(ws, limit, t, u - 1);
      StepKeepsFlights(ws, limit, u - 1);
      FlightsKeptIsTransitive(ws[t].cache, ws[u - 1].cache, ws[u].cache);
    }
  }

  /** A request that joins waits for an execution of its own key and digest, and whenever it wakes it reads the
      outcome that execution had - pruned, evicted or failed in the meantime or not. */
  lemma WaitersGetTheirResult(ws: seq<World>, limit: nat, t: nat, key: Text, digest: Block, now: int, expires: int,
                              flight: nat, ready: nat, wake: nat)
    requires Trace(ws, limit) && t + 1 < |ws| && t + 1 <= ready <= wake < |ws|
    requires Arrives(ws[t].cache, limit, key, digest, now, expires, ws[t + 1].cache, Joined(flight))
             && Ready(ws[ready].cache.flights, flight)
    ensures flight < |ws[wake].cache.flights|
    ensures ws[wake].cache.flights[flight].key == key && ws[wake].cache.flights[flight].digest == digest
    ensures ws[wake].cache.flights[flight].outcome == ws[ready].cache.flights[flight].outcome
  {
    SingleFlightAlways(ws, limit, t);
    FlightsKeptForever(ws, limit, t + 1, ready);
    FlightsKeptForever(ws, limit, ready, wake);
  }

  // ------------------------------------------------------------------ what a request gets

  /** The cache has something for the key: an execution that runs, or a result that has not expired. */
  predicate Serving(c: Cache, key: Text, now: int) {
    key in c.entries && c.entries[key] < |c.flights|
    && (c.flights[c.entries[key]].outcome.Some? ==> now < c.flights[c.entries[key]].expires)
  }

  /** A request joins the execution its key has, if its digest is the same, and is in conflict otherwise; exactly when
      there is none, or only an expired result, it starts one of its own. */
  lemma ServedWhileFresh(c: Cache, limit: nat, key: Text, digest: Block, now: int, expires: int, c': Cache, a: Arrival)
    requires WellIndexed(c) && Arrives(c, limit, key, digest, now, expires, c', a)
    ensures if Serving(c, key, now) then
              && c'.flights == c.flights
              && a == (if c.flights[c.entries[key]].digest == digest then Joined(c.entries[key]) else Conflict)
            else
              a == Started(|c.flights|) && c'.flights == c.flights + [Flight(key, digest, expires, None)]
              && key in c'.entries && c'.entries[key] == |c.flights|
  {
  }

  /** Nothing but expired results, and results to make room, is ever dropped by a request; what is kept leads where it
      led. */
  lemma OnlyResultsAreDropped(c: Cache, limit: nat, key: Text, digest: Block, now: int, expires: int, c': Cache,
                              a: Arrival)
    requires WellIndexed(c) && Arrives(c, limit, key, digest, now, expires, c', a)
    ensures forall k :: k in c.entries && k != key ==>
              if k in c'.entries then c'.entries[k] == c.entries[k] else Ready(c.flights, c.entries[k])
    ensures forall k :: k in c'.entries && k != key ==>
              k in c.entries && c'.entries[k] == c.entries[k]
              && (c.flights[c.entries[k]].outcome.Some? ==> now < c.flights[c.entries[k]].expires)
  {
    var kept := Pruned(c, now);
    if key !in kept {
      DroppedToMakeRoom(c.flights, kept, c'.entries, key, limit);
    }
  }

  lemma DroppedToMakeRoom(flights: seq<Flight>, kept: map<Text, nat>, entries: map<Text, nat>, key: Text, limit: nat)
    requires if |kept| >= limit then Evicted(flights, kept, entries - {key}) else entries - {key} == kept
    ensures forall k :: k in entries && k != key ==> k in kept && entries[k] == kept[k]
    ensures forall k :: k in kept && k != key && k !in entries ==> Ready(flights, kept[k])
  {
    var rest := entries - {key};
    forall k | k in entries && k != key ensures k in kept && entries[k] == kept[k] {
      assert k in rest && rest[k] == entries[k];
    }
    forall k | k in kept && k != key && k !in entries ensures Ready(flights, kept[k]) {
      assert k !in rest;
    }
  }

  /** A result that has not expired is dropped only when the cache is full, and only if no other result expires before
      it. */
  lemma FirstToExpireMakesRoom(c: Cache, limit: nat, key: Text, digest: Block, now: int, expires: int, c': Cache,
                               a: Arrival, k: Text)
    requires WellIndexed(c) && Arrives(c, limit, key, digest, now, expires, c', a)
    requires k in c.entries && k != key && k !in c'.entries && now < c.flights[c.entries[k]].expires
    ensures |c.entries| >= limit && key !in Pruned(c, now)
    ensures forall j :: j in Pruned(c, now) && Ready(c.flights, c.entries[j]) ==>
              c.flights[c.entries[k]].expires <= c.flights[c.entries[j]].expires
  {
    var kept := Pruned(c, now);
    var rest := c'.entries - {key};
    assert k in kept && k !in rest && rest != kept;
    FewerKeys(kept, c.entries);
    var victim :| Earliest(c.flights, kept, victim) && rest == kept - {victim};
    assert k == victim;
  }

  /** A result is kept for its key, an error is not; either way those who wait get it. */
  lemma FinishingKeepsResults(c: Cache, i: nat, outcome: Outcome)
    requires SingleFlight(c) && i in InFlight(c)
    ensures var c' := Finished(c, i, outcome);
            && c'.flights == c.flights[i := c.flights[i].(outcome := Some(outcome))]
            && (c.flights[i].key in c'.entries <==> outcome.Response?)
            && (outcome.Response? ==> c' == c.(flights := c'.flights))
  {
  }
}
