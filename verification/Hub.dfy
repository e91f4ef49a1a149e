/** The realtime hub's indexes: connections by identifier, by account and by topic. A connection is known by its
    identifier, which is generated fresh for it. */
module Hub {
  import opened Bytes
  import opened Text
  import opened Sizes

  /** The connections of each account, or of each topic. */
  type Buckets = map<Text, set<Text>>

  /** `clients` gives each registered connection's account. */
  datatype HubState = HubState(clients: map<Text, Text>, accounts: Buckets, topics: Buckets, closing: bool)

  const NEW_HUB := HubState(map[], map[], map[], false)

  datatype Limits = Limits(connections: nat, perAccount: nat)

  datatype HubError = Closed | ConnectionLimit | AccountLimit | InvalidTopic

  predicate TopicByte(b: byte, first: bool) {
    || 48 <= b <= 57 || 65 <= b <= 90 || 97 <= b <= 122
    || (!first && (b == 58 || b == 46 || b == 95 || b == 45))
  }

  predicate ValidTopic(t: Text) {
    1 <= |t| <= 128 && TopicByte(t[0], true) && forall i :: 0 <= i < |t| ==> TopicByte(t[i], false)
  }

  function Bucket(buckets: Buckets, key: Text): set<Text> {
    if key in buckets then buckets[key] else {}
  }

  function Added(buckets: Buckets, key: Text, id: Text): Buckets {
    buckets[key := Bucket(buckets, key) + {id}]
  }

  /** `id` out of one bucket, and the bucket out when it is empty then. */
  function Dropped(buckets: Buckets, key: Text, id: Text): Buckets {
    if key !in buckets then buckets
    else if buckets[key] - {id} == {} then buckets - {key}
    else buckets[key := buckets[key] - {id}]
  }

  /** The same for each of these keys. */
  function DroppedAll(buckets: Buckets, keys: set<Text>, id: Text): Buckets {
    map k | k in buckets && !(k in keys && buckets[k] - {id} == {}) :: if k in keys then buckets[k] - {id}
        else buckets[k]
  }

  // ------------------------------------------------------------------ the operations as functions

  function Registered(h: HubState, limits: Limits, id: Text, account: Text): (HubState, Option<HubError>) {
    if h.closing then (h, Some(Closed))
    else if |h.clients| >= limits.connections then (h, Some(ConnectionLimit))
    else if |Bucket(h.accounts, account)| >= limits.perAccount then (h, Some(AccountLimit))
    else (h.(clients := h.clients[id := account], accounts := Added(h.accounts, account, id)), None)
  }

  function Unregistered(h: HubState, id: Text, account: Text, own: set<Text>): HubState {
    if id !in h.clients then h
    else h.(clients := h.clients - {id}, accounts := Dropped(h.accounts, account, id),
            topics := DroppedAll(h.topics, own, id))
  }

  function Subscribed(h: HubState, id: Text, own: set<Text>, topic: Text): (HubState, set<Text>, Option<HubError>) {
    if !ValidTopic(topic) then (h, own, Some(InvalidTopic))
    else if id !in h.clients then (h, own, Some(Closed))
    else if topic in own then (h, own, None)
    else (h.(topics := Added(h.topics, topic, id)), own + {topic}, None)
  }

  function Unsubscribed(h: HubState, id: Text, own: set<Text>, topic: Text): (HubState, set<Text>, Option<HubError>) {
    if !ValidTopic(topic) then (h, own, Some(InvalidTopic))
    else (h.(topics := Dropped(h.topics, topic, id)), own - {topic}, None)
  }

  class Connection {
    const id: Text
    const account: Text
    var topics: set<Text>

    constructor (id: Text, account: Text)
      ensures this.id == id && this.account == account && topics == {}
    {
      this.id, this.account, topics := id, account, {};
    }
  }

  class Hub {
    const limits: Limits
    var clients: map<Text, Text>
    var accounts: Buckets
    var topics: Buckets
    var closing: bool

    function State(): HubState
      reads this
    {
      HubState(clients, accounts, topics, closing)
    }

    constructor (limits: Limits)
      ensures State() == NEW_HUB && this.limits == limits
    {
      this.limits, clients, accounts, topics, closing := limits, map[], map[], map[], false;
    }

    method Register(c: Connection) returns (e: Option<HubError>)
      modifies this
      ensures (State(), e) == Registered(old(State()), limits, c.id, c.account)
    {
      if closing {
        return Some(Closed);
      }
      if |clients| >= limits.connections {
        return Some(ConnectionLimit);
      }
      var bucket := Bucket(accounts, c.account);
      if |bucket| >= limits.perAccount {
        return Some(AccountLimit);
      }
      clients := clients[c.id := c.account];
      accounts := accounts[c.account := bucket + {c.id}];
      return None;
    }

    method DropFromTopic(topic: Text, id: Text)
      modifies this`topics
      ensures topics == Dropped(old(topics), topic, id)
    {
      if topic in topics {
        var subscribers := topics[topic] - {id};
        topics := if subscribers == {} then topics - {topic} else topics[topic := subscribers];
      }
    }

    method Unregister(c: Connection)
      modifies this
      ensures State() == Unregistered(old(State()), c.id, c.account, c.topics)
    {
      if c.id !in clients {
        return;
      }
      clients := clients - {c.id};
      if c.account in accounts {
        var rest := accounts[c.account] - {c.id};
        accounts := if rest == {} then accounts - {c.account} else accounts[c.account := rest];
      }
      DropFromTopics(c);
    }

    /** The loop over the connection's own topics. */
    method DropFromTopics(c: Connection)
      modifies this`topics
      ensures topics == DroppedAll(old(topics), c.topics, c.id)
    {
      var left := c.topics;
      ghost var gone: set<Text> := {};
      DropNone(topics, c.id);
      while left != {}
        invariant gone + left == c.topics && gone !! left
        invariant topics == DroppedAll(old(topics), gone, c.id)
        decreases |left|
      {
        var topic :| topic in left;
        DropOneMore(old(topics), gone, topic, c.id);
        DropFromTopic(topic, c.id);
        left, gone := left - {topic}, gone + {topic};
      }
      assert gone == c.topics;
    }

    method Subscribe(c: Connection, topic: Text) returns (e: Option<HubError>)
      modifies this, c
      ensures (State(), c.topics, e) == Subscribed(old(State()), c.id, old(c.topics), topic)
    {
      if !ValidTopic(topic) {
        return Some(InvalidTopic);
      }
      if c.id !in clients {
        return Some(Closed);
      }
      if topic in c.topics {
        return None;
      }
      c.topics := c.topics + {topic};
      topics := topics[topic := Bucket(topics, topic) + {c.id}];
      return None;
    }

    method Unsubscribe(c: Connection, topic: Text) returns (e: Option<HubError>)
      modifies this, c
      ensures (State(), c.topics, e) == Unsubscribed(old(State()), c.id, old(c.topics), topic)
    {
      if !ValidTopic(topic) {
        return Some(InvalidTopic);
      }
      c.topics := c.topics - {topic};
      DropFromTopic(topic, c.id);
      return None;
    }

    /** Close, up to the termination of the captured clients. */
    method BeginClose() returns (captured: set<Text>)
      modifies this
      ensures State() == old(State()).(closing := true)
      ensures captured == if old(closing) then {} else clients.Keys
    {
      if closing {
        return {};
      }
      closing := true;
      return clients.Keys;
    }
  }

  lemma DropNone(buckets: Buckets, id: Text)
    ensures forall none: set<Text> | none == {} :: DroppedAll(buckets, none, id) == buckets
  {
  }

  /** One more key dropped. */
  lemma DropOneMore(buckets: Buckets, keys: set<Text>, key: Text, id: Text)
    requires key !in keys
    ensures Dropped(DroppedAll(buckets, keys, id), key, id) == DroppedAll(buckets, keys + {key}, id)
  {
    var l, r := Dropped(DroppedAll(buckets, keys, id), key, id), DroppedAll(buckets, keys + {key}, id);
    assert forall k :: k in l <==> k in r;
    assert forall k :: k in l ==> l[k] == r[k];
  }

  // ------------------------------------------------------------------ all runs

  datatype Known = Known(account: Text, topics: set<Text>)

  /** The hub with every connection there ever was. */
  datatype World = World(hub: HubState, known: map<Text, Known>)

  datatype Event =
    | Register(id: Text, account: Text)
    | Unregister(id: Text)
    | Subscribe(id: Text, topic: Text)
    | Unsubscribe(id: Text, topic: Text)
    | BeginClose

  /** Connections register once, under a fresh identifier; the rest is done to known connections. */
  predicate Possible(w: World, event: Event) {
    match event
    case Register(id, _) => id !in w.known
    case BeginClose => true
    case _ => event.id in w.known
  }

  function Step(w: World, limits: Limits, event: Event): World
    requires Possible(w, event)
  {
    match event
    case Register(id, account) => World(Registered(w.hub, limits, id, account).0, w.known[id := Known(account, {})])
    case Unregister(id) => w.(hub := Unregistered(w.hub, id, w.known[id].account, w.known[id].topics))
    case Subscribe(id, topic) =>
      var (h, own, _) := Subscribed(w.hub, id, w.known[id].topics, topic);
      World(h, w.known[id := w.known[id].(topics := own)])
    case Unsubscribe(id, topic) =>
      var (h, own, _) := Unsubscribed(w.hub, id, w.known[id].topics, topic);
      World(h, w.known[id := w.known[id].(topics := own)])
    case BeginClose => w.(hub := w.hub.(closing := true))
  }

  predicate InBucket(buckets: Buckets, key: Text, id: Text) {
    key in buckets && id in buckets[key]
  }

  ghost predicate NoneEmpty(buckets: Buckets) {
    forall k :: k in buckets ==> buckets[k] != {}
  }

  /** Account buckets hold exactly the registered connections of the account. */
  ghost predicate AccountsAgree(h: HubState) {
    && NoneEmpty(h.accounts)
    && forall account, id :: InBucket(h.accounts, account, id) <==> id in h.clients && h.clients[id] == account
  }

  /** Topic buckets hold exactly the registered connections that list the topic. */
  ghost predicate TopicsAgree(w: World) {
    && NoneEmpty(w.hub.topics)
    && forall topic, id :: InBucket(w.hub.topics, topic, id) <==>
       id in w.hub.clients && id in w.known && topic in w.known[id].topics
  }

  ghost predicate WithinLimits(h: HubState, limits: Limits) {
    && |h.clients| <= limits.connections
    && forall account :: account in h.accounts ==> |h.accounts[account]| <= limits.perAccount
  }

  ghost predicate Agrees(w: World, limits: Limits) {
    && AccountsAgree(w.hub) && TopicsAgree(w) && WithinLimits(w.hub, limits)
    && (forall id :: id in w.hub.clients ==> id in w.known && w.known[id].account == w.hub.clients[id])
  }

  lemma AddedMembers(buckets: Buckets, key: Text, id: Text)
    ensures forall k, i :: InBucket(Added(buckets, key, id), k, i) <==> InBucket(buckets, k, i) || (k == key && i == id)
    ensures NoneEmpty(buckets) ==> NoneEmpty(Added(buckets, key, id))
  {
    assert id in Added(buckets, key, id)[key];
  }

  lemma DroppedMembers(buckets: Buckets, key: Text, id: Text)
    ensures forall k, i :: InBucket(Dropped(buckets, key, id), k, i) <==>
            InBucket(buckets, k, i) && !(k == key && i == id)
    ensures NoneEmpty(buckets) ==> NoneEmpty(Dropped(buckets, key, id))
  {
    if key in buckets && buckets[key] - {id} == {} {
      assert forall i :: i in buckets[key] ==> i in buckets[key] - {id} || i == id;
    }
  }

  lemma DroppedAllMembers(buckets: Buckets, keys: set<Text>, id: Text)
    ensures forall k, i :: InBucket(DroppedAll(buckets, keys, id), k, i) <==>
            InBucket(buckets, k, i) && !(k in keys && i == id)
    ensures NoneEmpty(buckets) ==> NoneEmpty(DroppedAll(buckets, keys, id))
  {
    forall k | k in keys && k in buckets && buckets[k] - {id} == {} ensures forall i :: i in buckets[k] ==> i == id {
      assert forall i :: i in buckets[k] ==> i in buckets[k] - {id} || i == id;
    }
  }

  /** Dropping makes no bucket larger. */
  lemma DroppedShrinks(buckets: Buckets, key: Text, id: Text, limit: nat)
    requires forall k :: k in buckets ==> |buckets[k]| <= limit
    ensures forall k :: k in Dropped(buckets, key, id) ==> |Dropped(buckets, key, id)[k]| <= limit
  {
    if key in buckets {
      SubsetIsSmaller(buckets[key] - {id}, buckets[key]);
    }
  }

  lemma RegisterAgrees(w: World, limits: Limits, id: Text, account: Text)
    requires Agrees(w, limits) && id !in w.known
    ensures Agrees(Step(w, limits, Register(id, account)), limits)
  {
    var h' := Registered(w.hub, limits, id, account).0;
    if h' != w.hub {
      RegisteredAccounts(w.hub, limits, id, account);
    }
    NewcomerTopics(w, h', id, account);
  }

  lemma RegisteredAccounts(h: HubState, limits: Limits, id: Text, account: Text)
    requires AccountsAgree(h) && WithinLimits(h, limits) && id !in h.clients
    requires Registered(h, limits, id, account).1.None?
    ensures AccountsAgree(Registered(h, limits, id, account).0)
            && WithinLimits(Registered(h, limits, id, account).0, limits)
  {
    var h' := Registered(h, limits, id, account).0;
    AddedMembers(h.accounts, account, id);
    assert h'.clients.Keys == h.clients.Keys + {id};
    assert |h'.clients| == |h'.clients.Keys| && |h.clients| == |h.clients.Keys|;
  }

  /** A connection that has just registered lists no topics and is in no topic bucket. */
  lemma NewcomerTopics(w: World, h': HubState, id: Text, account: Text)
    requires TopicsAgree(w) && id !in w.known
    requires h'.topics == w.hub.topics && (h'.clients == w.hub.clients || h'.clients == w.hub.clients[id := account])
    ensures TopicsAgree(World(h', w.known[id := Known(account, {})]))
  {
    assert forall topic :: !InBucket(w.hub.topics, topic, id);
  }

  lemma UnregisterAgrees(w: World, limits: Limits, id: Text)
    requires Agrees(w, limits) && id in w.known
    ensures Agrees(Step(w, limits, Unregister(id)), limits)
  {
    DroppedMembers(w.hub.accounts, w.known[id].account, id);
    DroppedAllMembers(w.hub.topics, w.known[id].topics, id);
    DroppedShrinks(w.hub.accounts, w.known[id].account, id, limits.perAccount);
    FewerKeys(w.hub.clients - {id}, w.hub.clients);
  }

  lemma SubscribeAgrees(w: World, limits: Limits, id: Text, topic: Text)
    requires TopicsAgree(w) && id in w.known
    ensures TopicsAgree(Step(w, limits, Subscribe(id, topic)))
  {
    AddedMembers(w.hub.topics, topic, id);
  }

  lemma UnsubscribeAgrees(w: World, limits: Limits, id: Text, topic: Text)
    requires TopicsAgree(w) && id in w.known
    ensures TopicsAgree(Step(w, limits, Unsubscribe(id, topic)))
  {
    DroppedMembers(w.hub.topics, topic, id);
  }

  lemma StepAgrees(w: World, limits: Limits, event: Event)
    requires Agrees(w, limits) && Possible(w, event)
    ensures Agrees(Step(w, limits, event), limits)
  {
    match event
    case Register(id, account) => RegisterAgrees(w, limits, id, account);
    case Unregister(id) => UnregisterAgrees(w, limits, id);
    case Subscribe(id, topic) => SubscribeAgrees(w, limits, id, topic);
    case Unsubscribe(id, topic) => UnsubscribeAgrees(w, limits, id, topic);
    case BeginClose =>
  }

  /** The world after a run, or None when an event was not possible. */
  function Run(w: World, limits: Limits, events: seq<Event>): Option<World> {
    if events == [] then Some(w)
    else
      match Run(w, limits, events[..|events| - 1])
      case None => None
      case Some(before) =>
        if Possible(before, events[|events| - 1]) then Some(Step(before, limits, events[|events| - 1])) else None
  }

  /** The indexes agree in every reachable state. */
  lemma {:induction false} IndexesAlwaysAgree(w: World, limits: Limits, events: seq<Event>)
    requires Agrees(w, limits) && Run(w, limits, events).Some?
    ensures Agrees(Run(w, limits, events).value, limits)
  {
    if events != [] {
      IndexesAlwaysAgree(w, limits, events[..|events| - 1]);
      StepAgrees(Run(w, limits, events[..|events| - 1]).value, limits, events[|events| - 1]);
    }
  }

  /** The same from the empty hub on. */
  lemma {:induction false} ReachableHubAgrees(limits: Limits, events: seq<Event>)
    requires Run(World(NEW_HUB, map[]), limits, events).Some?
    ensures Agrees(Run(World(NEW_HUB, map[]), limits, events).value, limits)
  {
    IndexesAlwaysAgree(World(NEW_HUB, map[]), limits, events);
  }

  /** Once closing, always closing; no client is added, and one that has been unregistered does not return. */
  lemma {:induction false} ClosingOnlyShrinks(w: World, limits: Limits, events: seq<Event>)
    requires w.hub.closing && Run(w, limits, events).Some?
    ensures var w' := Run(w, limits, events).value;
            && w'.hub.closing && w'.hub.clients.Keys <= w.hub.clients.Keys
            && forall i :: 0 <= i < |events| && events[i].Unregister? ==> events[i].id !in w'.hub.clients
  {
    if events != [] {
      ClosingOnlyShrinks(w, limits, events[..|events| - 1]);
    }
  }

  /** When every client there was at closing has been terminated, the hub and both indexes are empty. */
  lemma {:induction false} CloseEmptiesHub(w: World, limits: Limits, events: seq<Event>)
    requires Agrees(w, limits) && w.hub.closing && Run(w, limits, events).Some?
    requires forall id :: id in w.hub.clients ==> exists i :: 0 <= i < |events| && events[i] == Unregister(id)
    ensures Run(w, limits, events).value.hub == HubState(map[], map[], map[], true)
  {
    ClosingOnlyShrinks(w, limits, events);
    IndexesAlwaysAgree(w, limits, events);
    var h := Run(w, limits, events).value.hub;
    assert forall id :: id !in h.clients;
    forall k | k in h.accounts ensures false {
      var id :| id in h.accounts[k];
      assert InBucket(h.accounts, k, id);
    }
    forall k | k in h.topics ensures false {
      var id :| id in h.topics[k];
      assert InBucket(h.topics, k, id);
    }
    assert h.clients == map[] && h.accounts == map[] && h.topics == map[];
  }

  /** A connection that registers again with topics it still lists is in no bucket of theirs: the indexes agree
      afterwards exactly when it lists none. */
  lemma ReturningConnectionMustListNothing(w: World, limits: Limits, id: Text)
    requires Agrees(w, limits) && id in w.known && id !in w.hub.clients
    requires Registered(w.hub, limits, id, w.known[id].account).1.None?
    ensures TopicsAgree(World(Registered(w.hub, limits, id, w.known[id].account).0, w.known))
            <==> w.known[id].topics == {}
  {
    var w' := World(Registered(w.hub, limits, id, w.known[id].account).0, w.known);
    if w.known[id].topics != {} {
      var topic :| topic in w.known[id].topics;
      assert !InBucket(w'.hub.topics, topic, id);
    }
  }

  // ------------------------------------------------------------------ what each operation does

  /** The registered connections of an account. */
  function Connections(clients: map<Text, Text>, account: Text): set<Text> {
    set id | id in clients && clients[id] == account
  }

  /** A connection is registered exactly while the hub is open and has room for it and for its account; otherwise the
      error says which, and nothing changes. */
  lemma RegistersIff(h: HubState, limits: Limits, id: Text, account: Text)
    requires AccountsAgree(h)
    ensures var (h', e) := Registered(h, limits, id, account);
            && (e.None? <==>
                  !h.closing && |h.clients| < limits.connections
                  && |Connections(h.clients, account)| < limits.perAccount)
            && (e.None? ==> h'.clients == h.clients[id := account] && h'.topics == h.topics && !h'.closing
                            && InBucket(h'.accounts, account, id))
            && (e.Some? ==> h' == h)
            && (e == Some(Closed) <==> h.closing)
            && (e == Some(ConnectionLimit) ==> |h.clients| >= limits.connections)
            && (e == Some(AccountLimit) ==> |Connections(h.clients, account)| >= limits.perAccount)
            && e != Some(InvalidTopic)
  {
    assert Bucket(h.accounts, account) == Connections(h.clients, account) by {
      forall i ensures i in Bucket(h.accounts, account) <==> i in Connections(h.clients, account) {
        assert InBucket(h.accounts, account, i) <==> i in h.clients && h.clients[i] == account;
      }
    }
    AddedMembers(h.accounts, account, id);
  }

  /** What each event changes for its own connection; nothing changes for any other. */
  lemma EventsDoTheirPart(w: World, limits: Limits, event: Event)
    requires Agrees(w, limits) && Possible(w, event)
    ensures var w' := Step(w, limits, event);
            match event
            case Register(id, account) =>
              && w'.known == w.known[id := Known(account, {})]
              && w'.hub.clients == (if Registered(w.hub, limits, id, account).1.None? then w.hub.clients[id := account]
                                    else w.hub.clients)
              && w'.hub.topics == w.hub.topics
            case Unregister(id) => w'.known == w.known && w'.hub.clients == w.hub.clients - {id}
            case Subscribe(id, topic) =>
              && w'.hub.clients == w.hub.clients
              && w'.known == (if ValidTopic(topic) && id in w.hub.clients
                              then w.known[id := w.known[id].(topics := w.known[id].topics + {topic})] else w.known)
            case Unsubscribe(id, topic) =>
              && w'.hub.clients == w.hub.clients
              && w'.known == (if ValidTopic(topic)
                              then w.known[id := w.known[id].(topics := w.known[id].topics - {topic})] else w.known)
            case BeginClose => w' == w.(hub := w.hub.(closing := true))
    ensures !event.BeginClose? ==> Step(w, limits, event).hub.closing == w.hub.closing
  {
    match event
    case Subscribe(id, topic) =>
      if topic in w.known[id].topics {
        assert w.known[id].topics + {topic} == w.known[id].topics;
      }
    case _ =>
  }

  /** A subscription is refused exactly for an invalid topic or a connection that is not registered. */
  lemma SubscribesIff(h: HubState, id: Text, own: set<Text>, topic: Text)
    ensures var (_, _, e) := Subscribed(h, id, own, topic);
            e == if !ValidTopic(topic) then Some(InvalidTopic) else if id !in h.clients then Some(Closed) else None
    ensures Unsubscribed(h, id, own, topic).2 == if ValidTopic(topic) then None else Some(InvalidTopic)
  {
  }
}
