/** The SSE hub, `internal/streaming/hub.go`: registration under a per-key cap, and broadcast into bounded
    client queues. The hub's loop handles one message at a time, so each message is one method call. */
module Hub {

  const SEND_CAPACITY := 16

  type EnvID = nat
  type KeyID = nat

  datatype Event = Event(id: int, kind: string, env: EnvID, data: string)

  /** `a` can be had from `b` by leaving events out. */
  ghost predicate Subsequence(a: seq<Event>, b: seq<Event>)
    decreases |b|
  {
    a == [] ||
    (b != [] &&
     var front := b[..|b| - 1];
     Subsequence(a, front) || (a[|a| - 1] == b[|b| - 1] && Subsequence(a[..|a| - 1], front)))
  }

  lemma {:induction false} SubsequenceSteps(a: seq<Event>, b: seq<Event>, e: Event)
    requires Subsequence(a, b)
    ensures Subsequence(a, b + [e]) && Subsequence(a + [e], b + [e])
  {
    assert (b + [e])[..|b|] == b && (a + [e])[..|a|] == a;
  }

  /** What Subsequence means: an increasing choice of positions. */
  lemma {:induction false} SubsequenceKeepsOrder(a: seq<Event>, b: seq<Event>) returns (at: seq<nat>)
    requires Subsequence(a, b)
    ensures |at| == |a|
    ensures forall i | 0 <= i < |a| :: at[i] < |b| && b[at[i]] == a[i]
    ensures forall i, j | 0 <= i < j < |a| :: at[i] < at[j]
    decreases |b|
  {
    if a == [] {
      at := [];
    } else if Subsequence(a, b[..|b| - 1]) {
      at := SubsequenceKeepsOrder(a, b[..|b| - 1]);
    } else {
      at := SubsequenceKeepsOrder(a[..|a| - 1], b[..|b| - 1]);
      at := at + [|b| - 1];
    }
  }

  /** One connection. `closes` counts close(send); Go panics on the second. `offered` is the history of its
      environment's events broadcast since registration, `delivered` of those its handler has taken. */
  class Client {
    const envID: EnvID
    const apiKeyID: KeyID
    var send: seq<Event>
    var closes: nat
    ghost var offered: seq<Event>
    ghost var delivered: seq<Event>

    constructor (envID: EnvID, apiKeyID: KeyID)
      ensures this.envID == envID && this.apiKeyID == apiKeyID && IsNew()
    {
      this.envID, this.apiKeyID, send, closes, offered, delivered := envID, apiKeyID, [], 0, [], [];
    }

    ghost predicate IsNew()
      reads this
    {
      send == [] && closes == 0 && offered == [] && delivered == []
    }

    ghost predicate InOrder()
      reads this
    {
      |send| <= SEND_CAPACITY && Subsequence(delivered + send, offered)
    }

    /** The non-blocking send: a full queue misses the event. */
    method Offer(ev: Event)
      requires InOrder()
      modifies this`send, this`offered
      ensures InOrder() && offered == old(offered) + [ev]
      ensures send == if |old(send)| < SEND_CAPACITY then old(send) + [ev] else old(send)
    {
      SubsequenceSteps(delivered + send, offered, ev);
      if |send| < SEND_CAPACITY {
        send := send + [ev];
        assert delivered + send == old(delivered + send) + [ev];
      }
      offered := offered + [ev];
    }
  }

  ghost function WithKey(members: set<Client>, key: KeyID): set<Client> {
    set c | c in members && c.apiKeyID == key
  }

  function Count(perKey: map<KeyID, int>, key: KeyID): int {
    if key in perKey then perKey[key] else 0
  }

  ghost predicate CountsOk(perKey: map<KeyID, int>, members: set<Client>, cap: nat) {
    forall key :: Count(perKey, key) == |WithKey(members, key)| <= cap
  }

  /** The table holds exactly the members, each under its own environment, with no empty entries. */
  ghost predicate TableOk(clients: map<EnvID, set<Client>>, members: set<Client>) {
    && (forall env | env in clients :: clients[env] != {} && forall c | c in clients[env] :: c in members && c.envID == env)
    && (forall c | c in members :: c.envID in clients && c in clients[c.envID])
  }

  function Peers(clients: map<EnvID, set<Client>>, env: EnvID): set<Client> {
    if env in clients then clients[env] else {}
  }

  lemma WithKeyAdded(members: set<Client>, client: Client, key: KeyID)
    requires client !in members
    ensures |WithKey(members + {client}, key)| == |WithKey(members, key)| + if key == client.apiKeyID then 1 else 0
  {
    assert WithKey(members + {client}, key) ==
      if key == client.apiKeyID then WithKey(members, key) + {client} else WithKey(members, key);
  }

  lemma AddingCounts(perKey: map<KeyID, int>, members: set<Client>, cap: nat, client: Client)
    requires CountsOk(perKey, members, cap) && client !in members && Count(perKey, client.apiKeyID) < cap
    ensures CountsOk(perKey[client.apiKeyID := Count(perKey, client.apiKeyID) + 1], members + {client}, cap)
  {
    var more, after := members + {client}, perKey[client.apiKeyID := Count(perKey, client.apiKeyID) + 1];
    forall key ensures Count(after, key) == |WithKey(more, key)| <= cap {
      WithKeyAdded(members, client, key);
    }
  }

  lemma AddingRow(clients: map<EnvID, set<Client>>, members: set<Client>, client: Client)
    requires TableOk(clients, members)
    ensures TableOk(clients[client.envID := Peers(clients, client.envID) + {client}], members + {client})
  {
  }

  lemma RemovingCounts(perKey: map<KeyID, int>, members: set<Client>, cap: nat, client: Client)
    requires CountsOk(perKey, members, cap) && client in members
    ensures CountsOk(perKey[client.apiKeyID := Count(perKey, client.apiKeyID) - 1], members - {client}, cap)
  {
    var fewer, after := members - {client}, perKey[client.apiKeyID := Count(perKey, client.apiKeyID) - 1];
    forall key ensures Count(after, key) == |WithKey(fewer, key)| <= cap {
      assert fewer + {client} == members;
      WithKeyAdded(fewer, client, key);
    }
  }

  lemma RemovingRow(clients: map<EnvID, set<Client>>, members: set<Client>, client: Client)
    requires TableOk(clients, members) && client in members
    ensures var peers := clients[client.envID] - {client};
      TableOk(if peers == {} then clients - {client.envID} else clients[client.envID := peers], members - {client})
  {
    var peers := clients[client.envID] - {client};
    if peers == {} { assert forall c | c in members && c.envID == client.envID :: c !in clients[c.envID] - {client}; }
  }

  class Hub {
    var clients: map<EnvID, set<Client>>
    var perKey: map<KeyID, int>
    const perKeyCap: nat
    ghost var members: set<Client>

    /** Members are open and served in order, the table and the counts are true, and no count exceeds the cap. */
    ghost predicate Valid()
      reads this, members
    {
      && perKeyCap > 0 && TableOk(clients, members) && CountsOk(perKey, members, perKeyCap)
      && forall c | c in members :: c.closes == 0 && c.InOrder()
    }

    constructor (cap: int)
      ensures Valid() && members == {} && perKeyCap as int == if cap <= 0 then 10 else cap
    {
      clients, perKey, members := map[], map[], {};
      perKeyCap := if cap <= 0 then 10 else cap;
      new;
      forall key ensures WithKey(members, key) == {} {}
    }

    /** The register case of Run. A client over the cap has its channel closed and stays out. */
    method Register(client: Client) returns (accepted: bool)
      requires Valid() && client !in members && client.IsNew()
      modifies this, client`closes
      ensures Valid()
      ensures accepted <==> Count(old(perKey), client.apiKeyID) < perKeyCap
      ensures accepted ==> members == old(members) + {client} && client.closes == 0
      ensures !accepted ==> members == old(members) && client.closes == 1 && clients == old(clients) && perKey == old(perKey)
    {
      if Count(perKey, client.apiKeyID) >= perKeyCap {
        client.closes := client.closes + 1;
        return false;
      }
      assert client.delivered + client.send == [];
      Admit(client);
      return true;
    }

    method Admit(client: Client)
      requires Valid() && client !in members && client.closes == 0 && client.InOrder()
      requires Count(perKey, client.apiKeyID) < perKeyCap
      modifies this
      ensures Valid() && members == old(members) + {client}
    {
      AddingCounts(perKey, members, perKeyCap, client);
      AddingRow(clients, members, client);
      clients := clients[client.envID := Peers(clients, client.envID) + {client}];
      perKey := perKey[client.apiKeyID := Count(perKey, client.apiKeyID) + 1];
      members := members + {client};
    }

    /** The unregister case of Run. The channel is closed whether or not the client was registered; closing
        it twice panics. */
    method Unregister(client: Client) returns (panics: bool)
      requires Valid()
      modifies this, client`closes
      ensures Valid() && members == old(members) - {client}
      ensures client.closes == old(client.closes) + 1
      ensures panics <==> old(client.closes) > 0
    {
      if client in Peers(clients, client.envID) { Remove(client); }
      panics := client.closes > 0;
      client.closes := client.closes + 1;
    }

    method Remove(client: Client)
      requires Valid() && client in members
      modifies this
      ensures Valid() && members == old(members) - {client}
    {
      RemovingCounts(perKey, members, perKeyCap, client);
      RemovingRow(clients, members, client);
      var peers := clients[client.envID] - {client};
      clients := if peers == {} then clients - {client.envID} else clients[client.envID := peers];
      perKey := perKey[client.apiKeyID := Count(perKey, client.apiKeyID) - 1];
      members := members - {client};
    }

    /** Every client of the event's environment is offered it once; one with a full queue misses it. */
    method Broadcast(ev: Event)
      requires Valid()
      modifies members
      ensures Valid() && members == old(members)
      ensures forall c | c in members && c.envID == ev.env ::
        && c.offered == old(c.offered) + [ev] && c.delivered == old(c.delivered)
        && c.send == if |old(c.send)| < SEND_CAPACITY then old(c.send) + [ev] else old(c.send)
      ensures forall c | c in members && c.envID != ev.env :: unchanged(c)
    {
      if ev.env !in clients { return; }
      var todo := clients[ev.env];
      while todo != {}
        invariant todo <= clients[ev.env]
        invariant forall c | c in members && (c in todo || c.envID != ev.env) :: unchanged(c)
        invariant forall c | c in clients[ev.env] - todo ::
          && c.offered == old(c.offered) + [ev] && c.delivered == old(c.delivered) && c.closes == old(c.closes)
          && c.send == (if |old(c.send)| < SEND_CAPACITY then old(c.send) + [ev] else old(c.send))
          && c.InOrder()
      {
        var client :| client in todo;
        client.Offer(ev);
        todo := todo - {client};
      }
    }

    /** The client's handler takes the next queued event. */
    method Take(client: Client) returns (ev: Event)
      requires Valid() && client in members && client.send != []
      modifies client`send, client`delivered
      ensures Valid() && ev == old(client.send)[0]
      ensures client.send == old(client.send)[1..] && client.delivered == old(client.delivered) + [ev]
    {
      ev := client.send[0];
      client.send, client.delivered := client.send[1..], client.delivered + [ev];
      assert client.delivered + client.send == old(client.delivered + client.send);
    }

    /** Another message of the hub's loop; true when it panics. */
    method Handle(m: Message) returns (crashed: bool)
      requires Valid() && (m.Joined? ==> m.client !in members && m.client.IsNew())
      modifies this, members, if m.Published? then {} else {m.client}
      ensures Valid()
      ensures m.Published? ==> members == old(members)
      ensures m.Joined? ==> old(members) <= members <= old(members) + {m.client}
      ensures m.Left? ==> members == old(members) - {m.client}
    {
      crashed := false;
      match m
      case Published(ev) => Broadcast(ev);
      case Joined(client) => var _ := Register(client);
      case Left(client) => crashed := Unregister(client);
    }

    method TakeIfAny(client: Client)
      requires Valid() && client in members
      modifies client`send, client`delivered
      ensures Valid()
    {
      if client.send != [] { var _ := Take(client); }
    }

    /** One turn: the connection's handler may take an event, then the hub handles a message. */
    method Turn(client: Client, accepted: bool, m: Message, take: bool) returns (crashed: bool)
      requires Valid() && (client in members <==> accepted) && client.closes == (if accepted then 0 else 1)
      requires (!m.Published? ==> m.client != client) && (m.Joined? ==> m.client !in members && m.client.IsNew())
      modifies this, members, client, if m.Published? then {} else {m.client}
      ensures Valid() && members <= old(members) + if m.Published? then {} else {m.client}
      ensures (client in members <==> accepted) && client.closes == if accepted then 0 else 1
    {
      if accepted && take { TakeIfAny(client); }
      crashed := Handle(m);
    }

    /** Whatever else the hub handles while this connection lasts. `takes` says at which of the messages its handler
        takes an event off its queue first. */
    method Meanwhile(client: Client, accepted: bool, messages: seq<Message>, takes: set<nat>) returns (crashed: bool)
      requires Valid() && (client in members <==> accepted) && client.closes == (if accepted then 0 else 1)
      requires FromOthers(client, messages) && Newcomers(members, messages)
      modifies this, members, client, Senders(messages)
      ensures Valid()
      ensures !crashed ==> (client in members <==> accepted) && client.closes == if accepted then 0 else 1
      decreases |messages|
    {
      if messages == [] { return false; }
      TailIsFromOthers(client, messages);
      crashed := Turn(client, accepted, messages[0], |messages| in takes);
      if !crashed { crashed := Meanwhile(client, accepted, messages[1..], takes); }
    }

    /** ServeSSE: register, whatever else the hub handles meanwhile, then the deferred unregister. Unless another
        connection crashes the process first, it panics exactly when the hub was at its cap for the key, because
        the rejected channel is closed twice. */
    method Serve(client: Client, messages: seq<Message>, takes: set<nat>) returns (crashed: bool, panics: bool)
      requires Valid() && client !in members && client.IsNew()
      requires FromOthers(client, messages) && Newcomers(members, messages)
      modifies this, members, client, Senders(messages)
      ensures Valid()
      ensures !crashed ==> client !in members && (panics <==> Count(old(perKey), client.apiKeyID) == perKeyCap)
    {
      var accepted := Register(client);
      crashed := Meanwhile(client, accepted, messages, takes);
      if crashed { return true, false; }
      panics := Unregister(client);
    }
  }

  /** Who joins is new to the hub. */
  ghost predicate Newcomers(members: set<Client>, messages: seq<Message>)
    reads set m | m in messages && m.Joined? :: m.client
  {
    forall m | m in messages && m.Joined? :: m.client !in members && m.client.IsNew()
  }

  lemma TailIsFromOthers(client: Client, messages: seq<Message>)
    requires messages != [] && FromOthers(client, messages)
    ensures FromOthers(client, messages[1..]) && Senders(messages[1..]) <= Senders(messages)
    ensures !messages[0].Published? ==> messages[0].client != client && messages[0].client in Senders(messages)
    ensures !messages[0].Published? ==> forall m | m in messages[1..] && m.Joined? :: m.client != messages[0].client
  {
    assert messages[0] in messages && forall m | m in messages[1..] :: m in messages;
    assert forall i | 0 <= i < |messages| - 1 :: messages[1..][i] == messages[i + 1];
  }

  /** The messages other connections and handlers send the hub. */
  datatype Message = Published(ev: Event) | Joined(client: Client) | Left(client: Client)

  ghost function Senders(messages: seq<Message>): set<Client> {
    set m | m in messages && !m.Published? :: m.client
  }

  /** None is about this client, and a client joins before it leaves, and once. */
  ghost predicate FromOthers(client: Client, messages: seq<Message>) {
    && (forall m | m in messages && !m.Published? :: m.client != client)
    && forall i, j | 0 <= i < j < |messages| && !messages[i].Published? && messages[j].Joined? :: messages[i].client != messages[j].client
  }
}
