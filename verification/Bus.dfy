/** The bus server: which clients are identified, and what each of them has been told about that.
    Everything here runs on the main thread. */
module Bus {
  import opened Options

  type Id = string

  datatype Packet =
    | Challenge(nonce: nat)
    | Welcome(clients: set<Id>)
    | Join(id: Id)
    | Leave(id: Id)
    | Message(id: Id, text: string)

  datatype Command = Hello(id: Id, digest: nat) | Say(text: string) | Unknown

  datatype Outcome = Handled | Raised

  /** How one packet changes what a client takes the ids on the bus to be. */
  function Told(before: set<Id>, p: Packet): set<Id> {
    match p
    case Welcome(clients) => clients
    case Join(id) => before + {id}
    case Leave(id) => before - {id}
    case _ => before
  }

  function View(packets: seq<Packet>): set<Id> {
    if packets == [] then {}
    else Told(View(packets[..|packets| - 1]), packets[|packets| - 1])
  }

  /** The packets sent, with p after them for those who hear it. */
  function Hearing(packets: seq<Packet>, hears: bool, p: Packet): seq<Packet> {
    if hears then packets + [p] else packets
  }

  lemma ViewAppend(packets: seq<Packet>, p: Packet)
    ensures View(packets + [p]) == Told(View(packets), p)
  {
    assert (packets + [p])[..|packets|] == packets;
  }

  predicate Mentions(p: Packet, id: Id) {
    p.Welcome? || p == Join(id) || p == Leave(id)
  }

  predicate Presents(p: Packet, id: Id) {
    p == Join(id) || (p.Welcome? && id in p.clients)
  }

  /** The k-th packet says the id is there, and no later one speaks of it. */
  ghost predicate LastWord(packets: seq<Packet>, k: nat, id: Id) {
    k < |packets| && Presents(packets[k], id) && forall j :: k < j < |packets| ==> !Mentions(packets[j], id)
  }

  /** A client takes an id to be there exactly if the last word it got on it says so. */
  lemma {:induction false} ViewIsLastWord(packets: seq<Packet>, id: Id)
    ensures id in View(packets) <==> exists k :: LastWord(packets, k, id)
  {
    if packets != [] {
      var last := |packets| - 1;
      var before := packets[..last];
      ViewIsLastWord(before, id);
      if Presents(packets[last], id) {
        assert LastWord(packets, last, id);
      } else if !Mentions(packets[last], id) {
        if k :| LastWord(before, k, id) {
          assert LastWord(packets, k, id);
        }
        if k :| LastWord(packets, k, id) {
          assert LastWord(before, k, id);
        }
      }
    }
  }

  lemma WelcomeHeard(packets: seq<Packet>, ids: set<Id>)
    ensures View(packets + [Welcome(ids)]) == ids
  {
    ViewAppend(packets, Welcome(ids));
  }

  lemma JoinTells(before: set<Id>, id: Id)
    ensures Told(before, Join(id)) == before + {id}
  {
  }

  class BusServer {
    var clients: map<Id, ClientHandler>
    ghost var handlers: set<ClientHandler>    // every connection ever accepted

    constructor ()
      ensures clients == map[] && handlers == {} && Valid()
    {
      clients, handlers := map[], {};
    }

    ghost predicate Registered(client: ClientHandler)
      reads this, client
    {
      client.instanceId.Some? && client.instanceId.value in clients && clients[client.instanceId.value] == client
    }

    /** The identified connections are exactly the registered ones, each under its own id and open;
        but for those on their way in or out. */
    ghost predicate Consistent(passing: set<ClientHandler>)
      reads this, handlers
    {
      && (forall id :: id in clients ==>
        clients[id] in handlers && clients[id].instanceId == Some(id) && clients[id].open)
      && (forall h :: h in handlers ==>
            h.server == this && (h.instanceId.Some? && h !in passing ==> Registered(h)))
      && (forall h :: h in passing ==> h in handlers && !Registered(h))
    }

    /** Each registered client has been told exactly who is registered. */
    ghost predicate Agreed()
      reads this, handlers
      requires forall id :: id in clients ==> clients[id] in handlers
    {
      forall id :: id in clients ==> View(clients[id].sent) == clients.Keys
    }

    ghost predicate Valid()
      reads this, handlers
    {
      ValidBut({})
    }

    ghost predicate ValidBut(passing: set<ClientHandler>)
      reads this, handlers
    {
      Consistent(passing) && Agreed()
    }

    method Register(id: Id, client: ClientHandler)
      modifies this`clients
      ensures clients == old(clients)[id := client]
    {
      clients := clients[id := client];
    }

    method Unregister(id: Id)
      requires id in clients
      modifies this`clients
      ensures clients == old(clients) - {id}
    {
      clients := clients - {id};
    }

    /** Each registered client but the excluded one hears the packet once. */
    method Broadcast(packet: Packet, exclude: Option<ClientHandler>)
      requires forall id :: id in clients ==> clients[id] in handlers && clients[id].instanceId == Some(id)
      requires forall id :: id in clients && exclude != Some(clients[id]) ==> clients[id].open
      modifies handlers`sent
      ensures forall h :: h in handlers ==>
        h.sent == Hearing(old(h.sent), Registered(h) && exclude != Some(h), packet)
    {
      ghost var told: set<ClientHandler> := {};
      var todo := clients.Keys;
      while todo != {}
        invariant todo <= clients.Keys
        invariant told == set id | id in clients && id !in todo && exclude != Some(clients[id]) :: clients[id]
        invariant forall h :: h in handlers ==> h.sent == Hearing(old(h.sent), h in told, packet)
      {
        var id :| id in todo;
        if exclude != Some(clients[id]) {
          assert clients[id] !in told;
          clients[id].Send(packet);
          told := told + {clients[id]};
        }
        todo := todo - {id};
      }
    }

    /** Brings the clients that held before up to date on who is registered. */
    method Announce(packet: Packet, exclude: Option<ClientHandler>, ghost before: set<Id>,
        ghost passing: set<ClientHandler>)
      requires Told(before, packet) == clients.Keys
      requires forall id :: id in clients ==>
        && clients[id] in handlers && clients[id].instanceId == Some(id)
        && (exclude != Some(clients[id]) ==> clients[id].open && View(clients[id].sent) == before)
      modifies handlers`sent
      ensures forall id :: id in clients && exclude != Some(clients[id]) ==> View(clients[id].sent) == clients.Keys
      ensures old(Consistent(passing)) ==> Consistent(passing)
      ensures forall h :: h in handlers ==>
        h.sent == Hearing(old(h.sent), Registered(h) && exclude != Some(h), packet)
    {
      hide View, Told;
      Broadcast(packet, exclude);
      forall id | id in clients && exclude != Some(clients[id]) ensures View(clients[id].sent) == clients.Keys {
        assert clients[id].sent == old(clients[id].sent) + [packet];
        ViewAppend(old(clients[id].sent), packet);
      }
    }

    method HandleSocket(challenge: nat) returns (client: ClientHandler)
      requires Valid()
      modifies this`handlers
      ensures Valid() && fresh(client) && handlers == old(handlers) + {client}
      ensures client.server == this && client.challenge == challenge
      ensures client.open && client.instanceId.None? && client.sent == [Challenge(challenge)]
    {
      client := new ClientHandler(this, challenge);
      handlers := handlers + {client};
    }

    /** What each connection has carried. */
    ghost function Traffic(): map<ClientHandler, seq<Packet>>
      reads this, handlers
    {
      map h | h in handlers :: h.sent
    }

    /** Every identified client is disconnected, and no other connection is. order: in which this
        happens; each client hears those leave that go before it. */
    method Stop() returns (ghost order: seq<Id>)
      requires Valid()
      modifies this`clients, handlers
      ensures Valid() && clients == map[]
      ensures forall h :: h in handlers ==> h.instanceId.None? && (h.open == (old(h.open) && !old(Registered(h))))
      ensures forall id :: id in order <==> id in old(clients)
      ensures GoneTold(old(clients), old(Traffic()), Traffic(), order)
      ensures OthersTold(old(clients), old(Traffic()), Traffic())
    {
      ghost var all, before := clients, Traffic();
      assert Apart(all);
      hide View, Told, Hearing, Leaves, RestTold, GoneTold, OthersTold, Apart;
      order := [];
      NobodyGone(all, before);
      var todo := clients.Keys;
      while todo != {}
        invariant Valid() && clients.Keys == todo
        invariant forall id :: id in clients ==> id in all && clients[id] == all[id]
        invariant forall h :: h in handlers ==>
          h.open == (old(h.open) && (old(Registered(h)) ==> Registered(h)))
        invariant forall id :: id in order <==> id in all && id !in todo
        invariant RestTold(clients, before, Traffic(), order) && GoneTold(all, before, Traffic(), order)
        invariant OthersTold(all, before, Traffic())
      {
        var id :| id in todo;
        StopOne(id, all, before, order);
        order := order + [id];
        todo := todo - {id};
      }
      clients := map[];
    }

    /** One client goes, and the others hear it leave. */
    method StopOne(id: Id, ghost all: map<Id, ClientHandler>, ghost before: map<ClientHandler, seq<Packet>>,
        ghost order: seq<Id>)
      requires Valid() && id in clients && id !in order
      requires forall i :: i in clients ==> i in all && clients[i] == all[i]
      requires RestTold(clients, before, Traffic(), order) && GoneTold(all, before, Traffic(), order)
      requires OthersTold(all, before, Traffic())
      requires Apart(all) && forall i :: i in order ==> i !in clients
      modifies this`clients, handlers
      ensures Valid() && clients == old(clients) - {id}
      ensures forall h :: h in handlers ==> h.open == (old(h.open) && (old(Registered(h)) ==> Registered(h)))
      ensures RestTold(clients, before, Traffic(), order + [id]) && GoneTold(all, before, Traffic(), order + [id])
      ensures OthersTold(all, before, Traffic())
    {
      hide View, Told, Leaves, RestTold, GoneTold, OthersTold, Apart;
      ghost var was, sent := clients, Traffic();
      clients[id].Stop({});
      assert OneLeft(id, was, sent, clients, Traffic());
      hide Hearing, OneLeft;
      LeftInOrder(id, all, before, was, sent, clients, Traffic(), order);
    }
  }

  /** The packets by which those ids are told to leave. */
  function Leaves(ids: seq<Id>): seq<Packet> {
    if ids == [] then [] else Leaves(ids[..|ids| - 1]) + [Leave(ids[|ids| - 1])]
  }

  /** From sent to sent', the client under that id has gone, and those that remain have heard it leave. */
  ghost predicate OneLeft(id: Id, clients: map<Id, ClientHandler>, sent: map<ClientHandler, seq<Packet>>,
      clients': map<Id, ClientHandler>, sent': map<ClientHandler, seq<Packet>>)
  {
    && id in clients && clients' == clients - {id} && sent'.Keys == sent.Keys
    && (forall h :: h in sent ==> sent'[h] == if h in clients'.Values then sent[h] + [Leave(id)] else sent[h])
    && (forall i :: i in clients && i != id ==> clients[i] != clients[id])
  }

  ghost predicate Apart(clients: map<Id, ClientHandler>) {
    forall i, j :: i in clients && j in clients && i != j ==> clients[i] != clients[j]
  }

  /** Who remains has heard all of those in order leave. */
  ghost predicate RestTold(clients: map<Id, ClientHandler>, before: map<ClientHandler, seq<Packet>>,
      sent: map<ClientHandler, seq<Packet>>, order: seq<Id>)
  {
    forall id :: id in clients ==> HasHeard(clients[id], before, sent, Leaves(order))
  }

  ghost predicate HasHeard(h: ClientHandler, before: map<ClientHandler, seq<Packet>>,
      sent: map<ClientHandler, seq<Packet>>, news: seq<Packet>)
  {
    h in before && h in sent && sent[h] == before[h] + news
  }

  /** Those in order are different clients, and each has heard the ones before it leave. */
  ghost predicate GoneTold(all: map<Id, ClientHandler>, before: map<ClientHandler, seq<Packet>>,
      sent: map<ClientHandler, seq<Packet>>, order: seq<Id>)
  {
    forall k :: 0 <= k < |order| ==>
      && order[k] in all && order[k] !in order[..k]
      && HasHeard(all[order[k]], before, sent, Leaves(order[..k]))
  }

  /** The connections of nobody identified have heard nothing. */
  ghost predicate OthersTold(all: map<Id, ClientHandler>, before: map<ClientHandler, seq<Packet>>,
      sent: map<ClientHandler, seq<Packet>>)
  {
    forall h :: h in sent && h !in all.Values ==> HasHeard(h, before, sent, [])
  }

  lemma NobodyGone(all: map<Id, ClientHandler>, sent: map<ClientHandler, seq<Packet>>)
    requires forall id :: id in all ==> all[id] in sent
    ensures RestTold(all, sent, sent, []) && GoneTold(all, sent, sent, []) && OthersTold(all, sent, sent)
  {
    assert Leaves([]) == [];
  }

  lemma LeftInOrder(id: Id, all: map<Id, ClientHandler>, before: map<ClientHandler, seq<Packet>>,
      clients: map<Id, ClientHandler>, sent: map<ClientHandler, seq<Packet>>,
      clients': map<Id, ClientHandler>, sent': map<ClientHandler, seq<Packet>>, order: seq<Id>)
    requires OneLeft(id, clients, sent, clients', sent') && id !in order
    requires RestTold(clients, before, sent, order) && GoneTold(all, before, sent, order)
    requires OthersTold(all, before, sent)
    requires forall i :: i in clients ==> i in all && clients[i] == all[i]
    requires Apart(all)
    requires forall i :: i in order ==> i !in clients
    ensures RestTold(clients', before, sent', order + [id]) && GoneTold(all, before, sent', order + [id])
    ensures OthersTold(all, before, sent')
  {
    OneMoreLeft(order, id);
    hide Leaves;
    var order' := order + [id];
    forall k | 0 <= k < |order'|
      ensures order'[k] in all && order'[k] !in order'[..k]
      ensures HasHeard(all[order'[k]], before, sent', Leaves(order'[..k]))
    {
      assert order'[..k] == order[..k];
      assert order'[k] == if k < |order| then order[k] else id;
      assert order'[k] !in clients';
    }
  }

  lemma OneMoreLeft(ids: seq<Id>, id: Id)
    ensures Leaves(ids + [id]) == Leaves(ids) + [Leave(id)]
  {
    assert (ids + [id])[..|ids|] == ids;
  }

  class ClientHandler {
    const server: BusServer
    const challenge: nat
    var open: bool                   // the socket is not None
    var instanceId: Option<Id>
    var sent: seq<Packet>            // what the socket has carried to the client

    /** The receiver thread, started at once, sends the challenge before it reads anything. */
    constructor (server: BusServer, challenge: nat)
      ensures this.server == server && this.challenge == challenge
      ensures open && instanceId.None? && sent == [Challenge(challenge)]
    {
      this.server, this.challenge := server, challenge;
      open, instanceId, sent := true, None, [Challenge(challenge)];
    }

    method Send(packet: Packet)
      requires open
      modifies this`sent
      ensures sent == old(sent) + [packet]
    {
      sent := sent + [packet];
    }

    method Stop(ghost passing: set<ClientHandler>)
      requires server.ValidBut(passing) && this in server.handlers && this !in passing
      modifies server`clients, server.handlers
      ensures server.ValidBut(passing)
      ensures instanceId.None? && !open
      ensures server.clients == if old(instanceId).None? then old(server.clients)
        else old(server.clients) - {old(instanceId).value}
      ensures forall h :: h in server.handlers ==>
        h.sent == if old(instanceId).Some?
          then Hearing(old(h.sent), server.Registered(h), Leave(old(instanceId).value)) else old(h.sent)
      ensures forall h :: h in server.handlers && h != this ==>
        h.instanceId == old(h.instanceId) && h.open == old(h.open)
    {
      hide View, Told;
      if instanceId.Some? {
        Withdraw(passing);
        instanceId := None;
      }
      open := false;
    }

    /** The first part of it: unregistered, and the others told. */
    method Withdraw(ghost passing: set<ClientHandler>)
      requires server.ValidBut(passing) && this in server.handlers && this !in passing && instanceId.Some?
      modifies server`clients, server.handlers`sent
      ensures server.ValidBut(passing + {this})
      ensures server.clients == old(server.clients) - {instanceId.value}
      ensures forall h :: h in server.handlers ==>
        h.sent == Hearing(old(h.sent), server.Registered(h), Leave(instanceId.value))
    {
      hide View;
      ghost var before := server.clients.Keys;
      server.Unregister(instanceId.value);
      server.Announce(Leave(instanceId.value), None, before, passing + {this});
    }

    /** The last part of the hello: registered, announced to the others, and, if the socket is still
        there, welcomed. */
    method Enter(id: Id) returns (r: Outcome)
      requires this in server.handlers && instanceId == Some(id) && id !in server.clients
      requires server.ValidBut({this})
      modifies server`clients, server.handlers`sent
      ensures server.clients == old(server.clients)[id := this]
      ensures r == if open then Handled else Raised
      ensures server.Valid() <==> open
      ensures forall h :: h in server.handlers && h != this ==>
        && server.Registered(h) == old(server.Registered(h))
        && h.sent == Hearing(old(h.sent), server.Registered(h), Join(id))
      ensures sent == Hearing(old(sent), open, Welcome(server.clients.Keys))
    {
      hide View, Told;
      assert forall i :: i in server.clients ==> server.clients[i] != this;
      ghost var before := server.clients.Keys;
      server.Register(id, this);
      JoinTells(before, id);
      assert open <==> server.Consistent({});
      server.Announce(Join(id), Some(this), before, {});
      if !open {
        assert server.clients[id] == this;
        return Raised;
      }
      hide BusServer.Consistent;
      Greet(id);
      r := Handled;
    }

    method Greet(id: Id)
      requires open && id in server.clients && server.clients[id] == this && server.Consistent({})
      requires forall i :: i in server.clients && i != id ==> View(server.clients[i].sent) == server.clients.Keys
      modifies this`sent
      ensures server.Valid() && sent == old(sent) + [Welcome(server.clients.Keys)]
    {
      hide View, Told;
      Send(Welcome(server.clients.Keys));
      WelcomeHeard(old(sent), server.clients.Keys);
    }

    /** Whether a packet is a hello that gets past its checks; digest is sha-256 over the bus key and a
        challenge. */
    predicate Admits(packet: Command, busKey: Option<nat>, digest: (nat, nat) -> nat)
      reads this
    {
      packet.Hello? && instanceId.None? && busKey.Some? && packet.digest == digest(busKey.value, challenge)
    }

    method HandlePacket(packet: Command, busKey: Option<nat>, digest: (nat, nat) -> nat) returns (r: Outcome)
      requires server.Valid() && this in server.handlers
      modifies server`clients, server.handlers
      ensures open == old(open)
      ensures server.Valid() <==> (old(Admits(packet, busKey, digest)) ==> open)
      ensures r == Handled <==>
        (old(Admits(packet, busKey, digest)) && open) || packet.Unknown? || (packet.Say? && instanceId.Some?)
      ensures old(Admits(packet, busKey, digest)) ==>
        && instanceId == Some(packet.id) && server.clients == old(server.clients)[packet.id := this]
        && sent == Hearing(old(sent), open, Welcome(server.clients.Keys))
        && forall h :: h in server.handlers && h != this ==>
             h.sent == Hearing(Hearing(old(h.sent), server.Registered(h) && packet.id in old(server.clients),
               Leave(packet.id)),
                               server.Registered(h), Join(packet.id))
      ensures old(Admits(packet, busKey, digest)) ==>
        forall h :: h in server.handlers && h != this ==>
          if packet.id in old(server.clients) && h == old(server.clients[packet.id]) then h.instanceId.None? && !h.open
          else h.instanceId == old(h.instanceId) && h.open == old(h.open)
      ensures packet.Hello? ==>
        if old(instanceId).None? && busKey.Some? && packet.digest == digest(busKey.value, challenge) then
          instanceId == Some(packet.id)
        else
          && r == Raised && server.clients == old(server.clients)
          && forall h :: h in server.handlers ==>
               h.instanceId == old(h.instanceId) && h.open == old(h.open) && h.sent == old(h.sent)
      ensures !old(Admits(packet, busKey, digest)) ==>
        && server.clients == old(server.clients)
        && forall h :: h in server.handlers ==> h.instanceId == old(h.instanceId) && h.open == old(h.open)
      ensures !old(Admits(packet, busKey, digest)) ==> forall h :: h in server.handlers ==>
        h.sent == if packet.Say? && instanceId.Some?
                  then Hearing(old(h.sent), server.Registered(h) && h != this, Message(instanceId.value, packet.text))
                  else old(h.sent)
    {
      hide View, Told, Hearing, BusServer.Consistent, BusServer.Agreed, BusServer.Registered;
      match packet
      case Hello(id, provided) =>
        if instanceId.Some? {
          return Raised;
        }
        if busKey.None? {
          return Raised;
        }
        if provided != digest(busKey.value, challenge) {
          return Raised;
        }
        r := Identify(id);
      case Say(text) =>
        if instanceId.None? {
          return Raised;
        }
        Relay(text);
        r := Handled;
      case Unknown =>
        r := Handled;
    }

    /** A client that holds the id already is disconnected first. */
    method Identify(id: Id) returns (r: Outcome)
      requires server.Valid() && this in server.handlers && instanceId.None?
      modifies server`clients, server.handlers
      ensures instanceId == Some(id) && open == old(open)
      ensures server.clients == old(server.clients)[id := this]
      ensures r == if open then Handled else Raised
      ensures server.Valid() <==> open
      ensures forall h :: h in server.handlers && h != this ==>
        h.sent == Hearing(Hearing(old(h.sent), server.Registered(h) && id in old(server.clients), Leave(id)),
          server.Registered(h), Join(id))
      ensures sent == Hearing(old(sent), open, Welcome(server.clients.Keys))
      ensures forall h :: h in server.handlers && h != this ==>
        || (id in old(server.clients) && h == old(server.clients[id]))
        || (h.instanceId == old(h.instanceId) && h.open == old(h.open))
      ensures id in old(server.clients) ==> old(server.clients[id]).instanceId.None? && !old(server.clients[id]).open
    {
      hide View, Told, Hearing;
      TakeId(id);
      hide BusServer.ValidBut, BusServer.Registered;
      r := Enter(id);
    }

    /** The id is taken and its holder, if any, disconnected. */
    method TakeId(id: Id)
      requires server.Valid() && this in server.handlers && instanceId.None?
      modifies server`clients, server.handlers
      ensures server.ValidBut({this}) && !server.Registered(this)
      ensures instanceId == Some(id) && open == old(open) && sent == old(sent)
      ensures server.clients == old(server.clients) - {id}
      ensures forall h :: h in server.handlers ==>
        h.sent == Hearing(old(h.sent), server.Registered(h) && id in old(server.clients), Leave(id))
      ensures forall h :: h in server.handlers && h != this ==>
        || (id in old(server.clients) && h == old(server.clients[id]))
        || (h.instanceId == old(h.instanceId) && h.open == old(h.open))
      ensures id in old(server.clients) ==>
        var holder := old(server.clients[id]);
        holder in server.handlers && holder != this && holder.instanceId.None? && !holder.open
    {
      hide View, Told;
      instanceId := Some(id);
      assert server.ValidBut({this});
      assert id in server.clients ==> server.clients[id].instanceId == Some(id) && server.clients[id] != this;
      hide BusServer.Agreed;
      if id in server.clients {
        server.clients[id].Stop({this});
      }
    }

    /** Every other identified client hears the message. */
    method Relay(text: string)
      requires server.Valid() && this in server.handlers && instanceId.Some?
      modifies server.handlers`sent
      ensures server.Valid()
      ensures forall h :: h in server.handlers ==>
        h.sent == Hearing(old(h.sent), server.Registered(h) && h != this, Message(instanceId.value, text))
    {
      hide View;
      server.Announce(Message(instanceId.value, text), Some(this), server.clients.Keys, {});
    }
  }

  /** A run to such a state: the second client takes over the first one's id, and then the hello that
      the first one had sent twice is handled. */
  method LateHello() returns (server: BusServer, client: ClientHandler)
    ensures client in server.handlers && server.clients == map["a" := client]
    ensures !client.open && !server.Valid()
  {
    hide BusServer.Valid, BusServer.ValidBut, BusServer.Consistent, BusServer.Registered, View, Told, Hearing;
    var digest := (key: nat, challenge: nat) => key + challenge;
    server := new BusServer();
    client := server.HandleSocket(1);
    var other := server.HandleSocket(2);
    var _ := client.HandlePacket(Hello("a", 6), Some(5), digest);
    assert client.instanceId == Some("a") && server.clients == map["a" := client];
    var _ := other.HandlePacket(Hello("a", 7), Some(5), digest);
    assert client.instanceId.None? && !client.open && server.clients == map["a" := other];
    var _ := client.HandlePacket(Hello("a", 6), Some(5), digest);
  }
}
