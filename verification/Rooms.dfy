/** The WebSocket registries: clients with the rooms they joined, and rooms with their members. */
module Rooms {
  import opened Seqs

  datatype Conn = Conn(socket: nat, rooms: set<string>)

  /** `issued` remembers which client id the close listener of each socket was created with. */
  datatype Hub = Hub(
    connections: map<int, Conn>,
    rooms: map<string, set<int>>,
    counter: nat,
    issued: map<nat, int>)

  datatype Event =
    | Connect(socket: nat)
    | Join(client: int, room: string)
    | Leave(client: int, room: string)
    | CloseClient(client: int)
    | SocketClosed(socket: nat)
    | Stop

  predicate Enabled(s: Hub, e: Event) {
    match e
    case Connect(socket) => socket !in s.issued
    case SocketClosed(socket) => socket in s.issued
    case _ => true
  }

  predicate InRoom(s: Hub, client: int, room: string) {
    room in s.rooms && client in s.rooms[room]
  }

  /** connections.get(client)?.rooms.add(room) or .delete(room) */
  function WithRooms(s: Hub, client: int, rooms: set<string>): map<int, Conn>
    requires client in s.connections
  {
    s.connections[client := s.connections[client].(rooms := rooms)]
  }

  function Members(s: Hub, room: string): set<int> {
    if room in s.rooms then s.rooms[room] else {}
  }

  function JoinStep(s: Hub, client: int, room: string): Hub {
    if client !in s.connections || room == "" then s
    else
      s.(rooms := s.rooms[room := Members(s, room) + {client}],
         connections := WithRooms(s, client, s.connections[client].rooms + {room}))
  }

  function LeaveStep(s: Hub, client: int, room: string): Hub {
    if room !in s.rooms then s
    else
      var left := s.rooms[room] - {client};
      s.(rooms := if left == {} then s.rooms - {room} else s.rooms[room := left],
         connections := if client in s.connections then WithRooms(s, client, s.connections[client].rooms - {room})
                        else s.connections)
  }

  /** members.delete(client) for every room. */
  function Evicted(rooms: map<string, set<int>>, client: int): map<string, set<int>> {
    map room | room in rooms :: rooms[room] - {client}
  }

  /** The same, dropping the rooms that have no member then. */
  function Vacated(rooms: map<string, set<int>>, client: int): map<string, set<int>> {
    map room | room in rooms && rooms[room] - {client} != {} :: rooms[room] - {client}
  }

  /** _ws_close drops the rooms that are left without a member. */
  function CloseStep(s: Hub, client: int): Hub {
    if client !in s.connections then s
    else s.(connections := s.connections - {client}, rooms := Vacated(s.rooms, client))
  }

  function Step(s: Hub, e: Event): Hub
    requires Enabled(s, e)
  {
    match e
    case Connect(socket) =>
      var id := s.counter + 1;
      s.(counter := id, connections := s.connections[id := Conn(socket, {})], issued := s.issued[socket := id])
    case Join(client, room) => JoinStep(s, client, room)
    case Leave(client, room) => LeaveStep(s, client, room)
    case CloseClient(client) => CloseStep(s, client)
    case SocketClosed(socket) =>
      var client := s.issued[socket];
      s.(connections := s.connections - {client}, rooms := Evicted(s.rooms, client))
    case Stop => s.(connections := map[], rooms := map[], counter := 0)
  }

  const Initial := Hub(map[], map[], 0, map[])

  predicate Possible(s: Hub, es: seq<Event>)
    decreases |es|
  {
    es != [] ==> Enabled(s, es[0]) && Possible(Step(s, es[0]), es[1..])
  }

  function Run(s: Hub, es: seq<Event>): Hub
    requires Possible(s, es)
    decreases |es|
  {
    if es == [] then s else Run(Step(s, es[0]), es[1..])
  }

  // ---------------------------------------------------------------------
  // One relation behind the two indexes
  // ---------------------------------------------------------------------

  /** Who is connected, and who is in which room. */
  datatype Membership = Membership(connected: set<int>, member: set<(int, string)>, counter: nat)

  ghost function Abstract(s: Hub): Membership {
    Membership(s.connections.Keys,
               set client, room | client in s.connections && room in s.connections[client].rooms :: (client, room),
               s.counter)
  }

  ghost function Forget(m: Membership, client: int): Membership {
    m.(connected := m.connected - {client}, member := set p | p in m.member && p.0 != client)
  }

  /** The same steps on the relation. */
  ghost function AbstractStep(m: Membership, e: Event, issued: map<nat, int>): Membership
    requires e.SocketClosed? ==> e.socket in issued
  {
    match e
    case Connect(_) => Forget(m, m.counter + 1).(connected := m.connected + {m.counter + 1}, counter := m.counter + 1)
    case Join(client, room) =>
      if client in m.connected && room != "" then m.(member := m.member + {(client, room)}) else m
    case Leave(client, room) => m.(member := m.member - {(client, room)})
    case CloseClient(client) => Forget(m, client)
    case SocketClosed(socket) => Forget(m, issued[socket])
    case Stop => Membership({}, {}, 0)
  }

  /** The room index says the same as the clients' own room sets. */
  ghost predicate Agree(s: Hub) {
    forall client, room :: InRoom(s, client, room) <==> client in s.connections && room in s.connections[client].rooms
  }

  /** New ids are not in use, and no room has the empty name. */
  ghost predicate Tidy(s: Hub) {
    && (forall client :: client in s.connections ==> 0 < client <= s.counter)
    && "" !in s.rooms
  }

  lemma AgreeKept(s: Hub, e: Event)
    requires Agree(s) && Tidy(s) && Enabled(s, e)
    ensures Agree(Step(s, e))
  {
    var t := Step(s, e);
    match e
    case Connect(_) =>
      assert s.counter + 1 !in s.connections;
      forall client, room
        ensures InRoom(t, client, room) <==> client in t.connections && room in t.connections[client].rooms
      {
        assert InRoom(t, client, room) <==> InRoom(s, client, room);
      }
    case _ =>
      forall client, room
        ensures InRoom(t, client, room) <==> client in t.connections && room in t.connections[client].rooms
      {
        assert InRoom(s, client, room) <==> client in s.connections && room in s.connections[client].rooms;
        assert forall gone :: gone != client && InRoom(s, client, room) ==> client in s.rooms[room] - {gone};
      }
  }

  lemma TidyKept(s: Hub, e: Event)
    requires Tidy(s) && Enabled(s, e)
    ensures Tidy(Step(s, e))
  {
  }

  /** Each step does to the relation what it should, whichever of the two indexes it starts from. */
  lemma StepRefines(s: Hub, e: Event)
    requires Agree(s) && Tidy(s) && Enabled(s, e)
    ensures Abstract(Step(s, e)) == AbstractStep(Abstract(s), e, s.issued)
  {
    var m, t := Abstract(s), Step(s, e);
    var n := AbstractStep(m, e, s.issued);
    forall client, room
      ensures (client, room) in Abstract(t).member <==> (client, room) in n.member
    {
      assert (client, room) in m.member <==> client in s.connections && room in s.connections[client].rooms;
      assert (client, room) in Abstract(t).member <==> client in t.connections && room in t.connections[client].rooms;
      assert InRoom(s, client, room) <==> (client, room) in m.member;
    }
    assert Abstract(t).member == n.member;
  }

  /** The id a connection is given is not connected and in no room. */
  lemma NewIdIsFree(s: Hub)
    requires Tidy(s)
    ensures Abstract(s).counter == s.counter && s.counter + 1 !in Abstract(s).connected
    ensures Forget(Abstract(s), s.counter + 1) == Abstract(s)
  {
    var m := Abstract(s);
    assert forall p :: p in m.member ==> p.0 in s.connections;
    assert Forget(m, s.counter + 1).member == m.member;
  }

  lemma StepKeepsAndRefines(s: Hub, e: Event)
    requires Agree(s) && Tidy(s) && Enabled(s, e)
    ensures Agree(Step(s, e)) && Tidy(Step(s, e))
    ensures Abstract(Step(s, e)) == AbstractStep(Abstract(s), e, s.issued)
  {
    hide Agree, Tidy, Abstract, AbstractStep, Step, Enabled;
    AgreeKept(s, e);
    TidyKept(s, e);
    StepRefines(s, e);
  }

  lemma {:induction false} RunKeeps(s: Hub, es: seq<Event>)
    requires Agree(s) && Tidy(s) && Possible(s, es)
    ensures Agree(Run(s, es)) && Tidy(Run(s, es))
    decreases |es|
  {
    hide Agree, Tidy, Step, Enabled;
    if es != [] {
      AgreeKept(s, es[0]);
      TidyKept(s, es[0]);
      RunKeeps(Step(s, es[0]), es[1..]);
    }
  }

  ghost function AbstractRun(m: Membership, s: Hub, es: seq<Event>): Membership
    requires Possible(s, es)
    decreases |es|
  {
    if es == [] then m else AbstractRun(AbstractStep(m, es[0], s.issued), Step(s, es[0]), es[1..])
  }

  /** Over every run the two indexes agree and together are the one relation the events define. */
  lemma {:induction false} RunRefines(s: Hub, es: seq<Event>)
    requires Agree(s) && Tidy(s) && Possible(s, es)
    ensures Abstract(Run(s, es)) == AbstractRun(Abstract(s), s, es)
    decreases |es|
  {
    hide Agree, Tidy, Abstract, AbstractStep, Step;
    if es != [] {
      StepRefines(s, es[0]);
      AgreeKept(s, es[0]);
      TidyKept(s, es[0]);
      RunRefines(Step(s, es[0]), es[1..]);
    }
  }

  /** A room goes with its last member when that one leaves or is closed, and stays behind empty when its socket just closes. */
  lemma RoomsThatStay(s: Hub, client: int, room: string, socket: nat)
    requires room in s.rooms
    ensures room in Step(s, Leave(client, room)).rooms <==> s.rooms[room] - {client} != {}
    ensures room in Step(s, CloseClient(client)).rooms <==> client !in s.connections || s.rooms[room] - {client} != {}
    ensures socket in s.issued ==>
              room in Step(s, SocketClosed(socket)).rooms &&
              Step(s, SocketClosed(socket)).rooms[room] == s.rooms[room] - {s.issued[socket]}
  {
  }

  // ---------------------------------------------------------------------
  // Broadcasts
  // ---------------------------------------------------------------------

  /** Whom broadcastToRoom sends to: the members that are connected. */
  function Recipients(s: Hub, room: string): set<int> {
    set client | client in Members(s, room) && client in s.connections
  }

  lemma RecipientsAreMembers(s: Hub, room: string)
    requires Agree(s)
    ensures forall client :: client in Recipients(s, room) <==> (client, room) in Abstract(s).member
  {
    forall client ensures client in Recipients(s, room) <==> (client, room) in Abstract(s).member {
      assert InRoom(s, client, room) <==> client in Members(s, room);
    }
  }

  /** In every reachable state a broadcast goes to exactly the clients that are connected and have joined the room. */
  lemma BroadcastReachesTheRoom(es: seq<Event>, room: string, client: int)
    requires Possible(Initial, es)
    ensures var s := Run(Initial, es);
            && (client in Recipients(s, room) <==> client in s.connections && room in s.connections[client].rooms)
            && Recipients(s, room) == Members(s, room)
            && (client in Recipients(s, room) <==> (client, room) in AbstractRun(Abstract(Initial), Initial, es).member)
  {
    var s := Run(Initial, es);
    RunKeeps(Initial, es);
    RunRefines(Initial, es);
    assert InRoom(s, client, room) <==> client in Members(s, room);
    forall c ensures c in Recipients(s, room) <==> c in Members(s, room) {
      assert InRoom(s, c, room) <==> c in Members(s, room);
    }
  }

  // ---------------------------------------------------------------------
  // Close events after a restart
  // ---------------------------------------------------------------------

  /** A listener from before a stop fires for an id that has been given to another socket since. */
  predicate Hijacks(s: Hub, e: Event) {
    e.SocketClosed? && e.socket in s.issued && s.issued[e.socket] in s.connections &&
    s.connections[s.issued[e.socket]].socket != e.socket
  }

  /** Every connected client is evicted by the close event of its own socket only, exactly unless the event is such a one. */
  lemma ClosesOwnClientIff(s: Hub, socket: nat)
    requires Enabled(s, SocketClosed(socket))
    ensures (forall client :: client in s.connections && s.connections[client].socket != socket ==>
               client in Step(s, SocketClosed(socket)).connections) <==>
            !Hijacks(s, SocketClosed(socket))
  {
  }

  /** Each connection's socket listens for that client's close, and no socket has two ids; kept until a stop. */
  ghost predicate Listening(s: Hub) {
    && (forall socket :: socket in s.issued ==> s.issued[socket] <= s.counter)
    && (forall x, y :: x in s.issued && y in s.issued && x != y ==> s.issued[x] != s.issued[y])
    && (forall client :: client in s.connections ==>
          s.connections[client].socket in s.issued && s.issued[s.connections[client].socket] == client)
  }

  lemma ListeningKept(s: Hub, e: Event)
    requires Listening(s) && Enabled(s, e) && !e.Stop?
    ensures Listening(Step(s, e)) && !Hijacks(s, e)
  {
  }

  /** Without a stop in the run no close event evicts another socket's client. */
  lemma {:induction false} NoHijackWithoutStop(s: Hub, es: seq<Event>, i: nat)
    requires Listening(s) && Possible(s, es) && i < |es| && forall e :: e in es ==> !e.Stop?
    ensures Possible(s, es[..i]) && Enabled(Run(s, es[..i]), es[i]) && !Hijacks(Run(s, es[..i]), es[i])
    decreases |es|
  {
    hide Listening, Step, Enabled, Hijacks;
    assert es[0] in es;
    ListeningKept(s, es[0]);
    if i > 0 {
      assert forall e :: e in es[1..] ==> e in es;
      assert es[..i][0] == es[0] && es[..i][1..] == es[1..][..i - 1];
      NoHijackWithoutStop(Step(s, es[0]), es[1..], i - 1);
    }
  }

  /** With a stop it can: two sockets, a restart between them, and the first one's late close. */
  lemma RestartHijacks() returns (es: seq<Event>)
    ensures Possible(Initial, es) && Run(Initial, es).connections.Keys == {1} && Hijacks(Run(Initial, es), SocketClosed(0))
  {
    var s1 := Step(Initial, Connect(0));
    var s2 := Step(s1, Stop);
    var s3 := Step(s2, Connect(1));
    es := [Connect(0), Stop, Connect(1)];
    assert es[1..] == [Stop, Connect(1)] && es[1..][1..] == [Connect(1)] && es[1..][1..][1..] == [];
    assert Possible(s3, []) && Run(s3, []) == s3;
    assert Possible(s2, [Connect(1)]) && Run(s2, [Connect(1)]) == s3;
    assert Possible(s1, [Stop, Connect(1)]) && Run(s1, [Stop, Connect(1)]) == s3;
  }

  // ---------------------------------------------------------------------
  // The bridge
  // ---------------------------------------------------------------------

  lemma HasElement(s: set<int>)
    requires s != {}
    ensures exists x :: x in s
  {
    assert (forall x :: x !in s) ==> s == {};
  }

  class WebsocketBridge {
    var connections: map<int, Conn>
    var rooms: map<string, set<int>>
    var clientIdCounter: nat
    ghost var issued: map<nat, int>

    ghost function Model(): Hub
      reads this
    {
      Hub(connections, rooms, clientIdCounter, issued)
    }

    /** What a caller may rely on: the two registries name the same pairs of client and room. */
    ghost predicate Valid()
      reads this
    {
      Agree(Model()) && Tidy(Model())
    }

    /** Who is connected and who is in which room. */
    ghost function Seen(): Membership
      reads this
    {
      Abstract(Model())
    }

    constructor ()
      ensures Valid() && Model() == Initial && Seen() == Membership({}, {}, 0)
    {
      connections, rooms, clientIdCounter, issued := map[], map[], 0, map[];
    }

    /** One more client, with an id that nobody connected has, in no room. */
    method Upgrade(socket: nat) returns (clientId: int)
      requires Valid() && Enabled(Model(), Connect(socket))
      modifies this
      ensures Valid() && Model() == Step(old(Model()), Connect(socket)) && issued[socket] == clientId
      ensures clientId !in old(Seen()).connected
      ensures Seen() == Membership(old(Seen()).connected + {clientId}, old(Seen()).member, clientId)
    {
      hide Agree, Tidy, Abstract;
      NewIdIsFree(Model());
      StepKeepsAndRefines(Model(), Connect(socket));
      clientIdCounter := clientIdCounter + 1;
      clientId := clientIdCounter;
      connections := connections[clientId := Conn(socket, {})];
      issued := issued[socket := clientId];
    }

    /** The pair of client and room joins the relation, unless the client is not connected or the name is empty. */
    method RoomJoin(client: int, room: string)
      requires Valid()
      modifies this`connections, this`rooms
      ensures Valid() && Model() == Step(old(Model()), Join(client, room))
      ensures Seen() == old(Seen()).(member :=
                old(Seen()).member + if client in old(connections) && room != "" then {(client, room)} else {})
    {
      hide Agree, Tidy;
      StepKeepsAndRefines(Model(), Join(client, room));
      if client !in connections || room == "" {
        return;
      }
      var members := if room in rooms then rooms[room] else {};
      rooms := rooms[room := members + {client}];
      var conn := connections[client];
      connections := connections[client := conn.(rooms := conn.rooms + {room})];
    }

    /** The pair leaves the relation, and nothing else changes in it. */
    method RoomLeave(client: int, room: string)
      requires Valid()
      modifies this`connections, this`rooms
      ensures Valid() && Model() == Step(old(Model()), Leave(client, room))
      ensures Seen() == old(Seen()).(member := old(Seen()).member - {(client, room)})
    {
      hide Agree, Tidy, Abstract;
      StepKeepsAndRefines(Model(), Leave(client, room));
      if room !in rooms {
        return;
      }
      var members := rooms[room] - {client};
      rooms := if members == {} then rooms - {room} else rooms[room := members];
      if client in connections {
        var conn := connections[client];
        connections := connections[client := conn.(rooms := conn.rooms - {room})];
      }
    }

    /** The client is gone from the connections and from every room; everyone else stays. */
    method Close(client: int)
      requires Valid()
      modifies this`connections, this`rooms
      ensures Valid() && Model() == Step(old(Model()), CloseClient(client)) && Seen() == Forget(old(Seen()), client)
    {
      hide Agree, Tidy, Abstract, Forget;
      StepKeepsAndRefines(Model(), CloseClient(client));
      if client !in connections {
        return;
      }
      connections := connections - {client};
      var before := rooms;
      var todo := rooms.Keys;
      while todo != {}
        invariant connections == old(connections) - {client} && todo <= before.Keys && todo <= rooms.Keys
        invariant forall room :: room in rooms <==> room in before && (room in todo || before[room] - {client} != {})
        invariant forall room :: room in rooms ==> rooms[room] == if room in todo then before[room] else before[room] - {client}
      {
        var room :| room in todo;
        var members := rooms[room] - {client};
        rooms := if members == {} then rooms - {room} else rooms[room := members];
        todo := todo - {room};
      }
      assert rooms == Vacated(before, client);
    }

    /** The close listener that was given `clientId`: whoever holds that id by now is gone. */
    method OnSocketClosed(socket: nat, clientId: int)
      requires Valid() && Enabled(Model(), SocketClosed(socket)) && clientId == issued[socket]
      modifies this`connections, this`rooms
      ensures Valid() && Model() == Step(old(Model()), SocketClosed(socket))
      ensures Seen() == Forget(old(Seen()), clientId)
    {
      hide Agree, Tidy, Abstract, Forget;
      StepKeepsAndRefines(Model(), SocketClosed(socket));
      connections := connections - {clientId};
      var before := rooms;
      var todo := rooms.Keys;
      while todo != {}
        invariant connections == old(connections) - {clientId} && todo <= before.Keys && rooms.Keys == before.Keys
        invariant forall room :: room in rooms ==> rooms[room] == if room in todo then before[room] else before[room] - {clientId}
      {
        var room :| room in todo;
        rooms := rooms[room := rooms[room] - {clientId}];
        todo := todo - {room};
      }
      assert rooms == Evicted(before, clientId);
    }

    /** Nobody is connected or in a room, and ids start over. */
    method StopServer()
      requires Valid()
      modifies this`connections, this`rooms, this`clientIdCounter
      ensures Valid() && Model() == Step(old(Model()), Stop) && Seen() == Membership({}, {}, 0)
    {
      hide Agree, Tidy, Abstract;
      StepKeepsAndRefines(Model(), Stop);
      connections, rooms, clientIdCounter := map[], map[], 0;
    }

    /** The clients a send was attempted to, in turn: each member of the room once and nobody else. */
    method Broadcast(room: string) returns (sent: seq<int>)
      requires Valid()
      ensures NoDup(sent) && forall client :: client in sent <==> client in Recipients(Model(), room)
      ensures forall client :: client in sent <==> (client, room) in Seen().member
    {
      RecipientsAreMembers(Model(), room);
      hide Agree, Tidy, Abstract;
      sent := [];
      if room !in rooms {
        return;
      }
      var todo: set<int> := rooms[room];
      while todo != {}
        invariant NoDup(sent)
        invariant forall client :: client in sent <==> client in rooms[room] && client !in todo && client in connections
      {
        HasElement(todo);
        var client :| client in todo;
        todo := todo - {client};
        if client in connections {
          assert client !in sent;
          sent := sent + [client];
        }
      }
    }
  }
}
