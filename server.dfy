/** The websocket server: per-game registries of simulator and listener
    connections, the broadcast of every received message to a game's listeners,
    and the status report. Each locked region of the server is one method. */
module Server {
  import opened GoLib

  /** `ConnectionType`. */
  datatype ConnectionType = SimulatorConnection | ListenerConnection

  /** `Connection`: a websocket handle and its role, allocated afresh for every
      websocket request. */
  class Connection {
    const conn: Conn
    const connType: ConnectionType

    constructor (conn: Conn, connType: ConnectionType)
      ensures this.conn == conn && this.connType == connType
    {
      this.conn := conn;
      this.connType := connType;
    }
  }

  /** A registry: game id to the set of its connections (`map[string]map[*Connection]bool`). */
  type Registry = map<string, set<Connection>>

  /** One websocket write made by the server. */
  type Write = Sent<Connection>

  /** One call of `BroadcastToListeners`. */
  datatype Broadcast = Broadcast(gameId: string, message: Message)

  /** The body of the `/api/status` response. */
  datatype Status = Status(
    serverStatus: string,
    simulationCount: int,
    listenerCount: int,
    totalConnectionCount: int,
    simulationGameIds: seq<string>)

  // ---------------------------------------------------------------------------
  // The registries as values

  /** The connections of a game; a missing game reads as an empty (nil) set. */
  function Members(m: Registry, gameId: string): set<Connection> {
    if gameId in m then m[gameId] else {}
  }

  /** The role switch of `handleWebSocket`: `"simulator"` is a simulator,
      `"listener"` and the absent parameter `""` are listeners, anything else is
      refused. */
  function ParseConnectionType(connType: string): (r: Option<ConnectionType>)
    ensures r == Some(SimulatorConnection) <==> connType == "simulator"
    ensures r == Some(ListenerConnection) <==> connType == "listener" || connType == ""
  {
    match connType
    case "simulator" => Some(SimulatorConnection)
    case "listener" => Some(ListenerConnection)
    case "" => Some(ListenerConnection)
    case _ => None
  }

  /** Registration: the game's set is created if absent, then `c` is added. */
  function Registered(m: Registry, gameId: string, c: Connection): (r: Registry)
    ensures r.Keys == m.Keys + {gameId}
    ensures Members(r, gameId) == Members(m, gameId) + {c}
    ensures r - {gameId} == m - {gameId}
  {
    m[gameId := Members(m, gameId) + {c}]
  }

  /** Deregistration: `c` leaves the game's set; the game itself stays, possibly
      with an empty set (deleting from a missing game's nil set does nothing). */
  function Deregistered(m: Registry, gameId: string, c: Connection): (r: Registry)
    ensures r.Keys == m.Keys
    ensures Members(r, gameId) == Members(m, gameId) - {c}
    ensures r - {gameId} == m - {gameId}
  {
    if gameId in m then m[gameId := m[gameId] - {c}] else m
  }

  /** The connections of a game whose write fails. */
  function Failed(m: Registry, gameId: string, failing: set<Conn>): set<Connection> {
    set c | c in Members(m, gameId) && c.conn in failing
  }

  /** After a broadcast: the game's connections whose write failed are gone. */
  function Pruned(m: Registry, gameId: string, failing: set<Conn>): (r: Registry)
    ensures r.Keys == m.Keys
    ensures Members(r, gameId) == Members(m, gameId) - Failed(m, gameId, failing)
    ensures r - {gameId} == m - {gameId}
  {
    if gameId in m then m[gameId := m[gameId] - Failed(m, gameId, failing)] else m
  }

  /** The websocket handles of a set of connections. */
  function Handles(cs: set<Connection>): set<Conn> {
    set c | c in cs :: c.conn
  }

  lemma HandlesAdd(cs: set<Connection>, c: Connection)
    ensures Handles(cs + {c}) == Handles(cs) + {c.conn}
  {
  }

  lemma HandlesUnion(a: set<Connection>, b: set<Connection>)
    ensures Handles(a + b) == Handles(a) + Handles(b)
  {
  }

  /** The broadcasts made for `messages` read from a connection of `gameId`. */
  function BroadcastsOf(gameId: string, messages: seq<Message>): seq<Broadcast> {
    if messages == [] then []
    else BroadcastsOf(gameId, messages[..|messages| - 1]) + [Broadcast(gameId, messages[|messages| - 1])]
  }

  /** One broadcast per message, in the order the messages were read. */
  lemma {:induction false} OneBroadcastPerMessage(gameId: string, messages: seq<Message>)
    ensures |BroadcastsOf(gameId, messages)| == |messages|
    ensures forall i :: 0 <= i < |messages| ==> BroadcastsOf(gameId, messages)[i] == Broadcast(gameId, messages[i])
  {
    if messages != [] {
      var n := |messages| - 1;
      OneBroadcastPerMessage(gameId, messages[..n]);
    }
  }

  lemma BroadcastsOfSnoc(gameId: string, messages: seq<Message>, i: nat)
    requires i < |messages|
    ensures BroadcastsOf(gameId, messages[..i + 1]) == BroadcastsOf(gameId, messages[..i]) + [Broadcast(gameId, messages[i])]
  {
    assert messages[..i + 1][..i] == messages[..i];
  }

  /** The listeners of `members` still registered after `n` broadcasts, the
      `i`-th of which fails for the handles `failing(i)`. */
  function StillListening(members: set<Connection>, n: nat, failing: nat -> set<Conn>): (r: set<Connection>)
    ensures r <= members
  {
    if n == 0 then members
    else set c | c in StillListening(members, n - 1, failing) && c.conn !in failing(n - 1)
  }

  /** A listener is still registered exactly when none of the broadcasts failed
      to reach it. */
  lemma {:induction false} StillListeningExactly(members: set<Connection>, n: nat, failing: nat -> set<Conn>, c: Connection)
    ensures c in StillListening(members, n, failing) <==> c in members && forall i :: 0 <= i < n ==> c.conn !in failing(i)
  {
    if n > 0 {
      StillListeningExactly(members, n - 1, failing, c);
    }
  }

  /** Broadcast `n` removes from the listeners still registered those whose
      write fails, and adds their handles to the closed ones. */
  lemma DroppedSnoc(members: set<Connection>, n: nat, failing: nat -> set<Conn>, failed: set<Connection>, closed0: set<Conn>)
    requires failed == set c | c in StillListening(members, n, failing) && c.conn in failing(n)
    ensures StillListening(members, n + 1, failing) == StillListening(members, n, failing) - failed
    ensures closed0 + Handles(members - StillListening(members, n, failing)) + Handles(failed)
         == closed0 + Handles(members - StillListening(members, n + 1, failing))
  {
    assert members - StillListening(members, n + 1, failing) == (members - StillListening(members, n, failing)) + failed;
    HandlesUnion(members - StillListening(members, n, failing), failed);
  }

  /** A listener outside `members` that joins them for the broadcasts and leaves
      afterwards changes nothing for the others. */
  lemma StillListeningWithout(members: set<Connection>, c: Connection, n: nat, failing: nat -> set<Conn>)
    requires c !in members
    ensures StillListening(members + {c}, n, failing) - {c} == StillListening(members, n, failing)
  {
    forall x: Connection
      ensures x in StillListening(members + {c}, n, failing) - {c} <==> x in StillListening(members, n, failing)
    {
      StillListeningExactly(members + {c}, n, failing, x);
      StillListeningExactly(members, n, failing, x);
    }
  }

  /** `w`, cut at `marks`, holds the writes of `n` broadcasts of `messages` to
      a game whose listeners were `members`: round `i` writes message `i` once
      to each listener still registered after the broadcasts before it. */
  ghost predicate BroadcastWrites(w: seq<Write>, marks: seq<nat>, members: set<Connection>, messages: seq<Message>, n: nat,
                                  failing: nat -> set<Conn>)
    requires n <= |messages|
  {
    && InRounds(w, marks, n)
    && forall i :: 0 <= i < n ==> WritesOnceEach(Round(w, marks, n, i), StillListening(members, i, failing), messages[i])
  }

  /** The trace `w` keeps `w0` as its prefix and continues with the writes of
      the first `n` broadcasts. */
  ghost predicate ExtendsBroadcasts(w0: seq<Write>, w: seq<Write>, marks: seq<nat>, members: set<Connection>, messages: seq<Message>,
                                    n: nat, failing: nat -> set<Conn>)
    requires n <= |messages|
  {
    && |w0| <= |w|
    && w[..|w0|] == w0
    && BroadcastWrites(w[|w0|..], marks, members, messages, n, failing)
  }

  /** Broadcast `n` to the listeners still registered extends the writes by one round. */
  lemma BroadcastStep(w0: seq<Write>, before: seq<Write>, after: seq<Write>, marks: seq<nat>, members: set<Connection>,
                      messages: seq<Message>, n: nat, failing: nat -> set<Conn>)
    requires n < |messages|
    requires ExtendsBroadcasts(w0, before, marks, members, messages, n, failing)
    requires AppendsOneWriteEach(before, after, StillListening(members, n, failing), messages[n])
    ensures |w0| <= |after|
    ensures ExtendsBroadcasts(w0, after, marks + [|after| - |w0|], members, messages, n + 1, failing)
  {
    var next := after[|before|..];
    assert after == before + next;
    assert after[|w0|..] == before[|w0|..] + next;
    RoundsSnoc(before[|w0|..], marks, n, next);
    assert after[..|w0|] == w0;
  }

  /** Message `i` of a connection's read loop reaches a listener exactly when it
      was registered when the loop started and no earlier broadcast failed to
      reach it, and it reaches it once. */
  lemma HearsBroadcastExactly(w: seq<Write>, marks: seq<nat>, members: set<Connection>, messages: seq<Message>, n: nat,
                              failing: nat -> set<Conn>, i: nat, c: Connection)
    requires n <= |messages| && i < n
    requires BroadcastWrites(w, marks, members, messages, n, failing)
    ensures forall k :: 0 <= k < |Round(w, marks, n, i)| ==> Round(w, marks, n, i)[k].message == messages[i]
    ensures c in Recipients(Round(w, marks, n, i)) <==> c in members && forall j :: 0 <= j < i ==> c.conn !in failing(j)
  {
    assert WritesOnceEach(Round(w, marks, n, i), StillListening(members, i, failing), messages[i]);
    StillListeningExactly(members, i, failing, c);
  }

  /** The listeners a connection's messages are broadcast to: the game's
      listeners, joined by the connection itself when it is a listener. */
  function Audience(members: set<Connection>, connection: Connection): (r: set<Connection>)
    ensures r == members || (connection.connType == ListenerConnection && r == members + {connection})
    ensures connection in r <==> connection in members || connection.connType == ListenerConnection
  {
    if connection.connType == ListenerConnection then members + {connection} else members
  }

  /** Two registries with the same games, the same connections for `gameId` and
      the same entries elsewhere are equal. */
  lemma SameRegistry(a: Registry, b: Registry, gameId: string)
    requires a.Keys == b.Keys
    requires Members(a, gameId) == Members(b, gameId)
    requires a - {gameId} == b - {gameId}
    ensures a == b
  {
    forall g | g in a ensures a[g] == b[g] {
      if g != gameId {
        assert a[g] == (a - {gameId})[g];
      }
    }
  }

  /** The contract of `Registered` pins its result down: a registry with the
      same games plus `gameId`, the game's set grown by `c` and every other entry
      kept is the registry `Registered` returns. */
  lemma RegisteredDetermined(m: Registry, gameId: string, c: Connection, r: Registry)
    requires r.Keys == m.Keys + {gameId}
    requires Members(r, gameId) == Members(m, gameId) + {c}
    requires r - {gameId} == m - {gameId}
    ensures r == Registered(m, gameId, c)
  {
    SameRegistry(r, Registered(m, gameId, c), gameId);
  }

  /** Likewise for `Deregistered`: the same games, the game's set without `c`,
      every other entry kept. */
  lemma DeregisteredDetermined(m: Registry, gameId: string, c: Connection, r: Registry)
    requires r.Keys == m.Keys
    requires Members(r, gameId) == Members(m, gameId) - {c}
    requires r - {gameId} == m - {gameId}
    ensures r == Deregistered(m, gameId, c)
  {
    SameRegistry(r, Deregistered(m, gameId, c), gameId);
  }

  /** Likewise for `Pruned`: the same games, the game's set without its failed
      connections, every other entry kept. */
  lemma PrunedDetermined(m: Registry, gameId: string, failing: set<Conn>, r: Registry)
    requires r.Keys == m.Keys
    requires Members(r, gameId) == Members(m, gameId) - Failed(m, gameId, failing)
    requires r - {gameId} == m - {gameId}
    ensures r == Pruned(m, gameId, failing)
  {
    SameRegistry(r, Pruned(m, gameId, failing), gameId);
  }

  /** Registering twice is registering once. */
  lemma RegisterIdempotent(m: Registry, gameId: string, c: Connection)
    ensures Registered(Registered(m, gameId, c), gameId, c) == Registered(m, gameId, c)
  {
  }

  /** A connection that registers and later deregisters leaves its game's set as
      it found it, but the game's entry stays, even if it was created on the way in. */
  lemma {:induction false} RegisterThenDeregister(m: Registry, gameId: string, c: Connection)
    requires c !in Members(m, gameId)
    ensures Deregistered(Registered(m, gameId, c), gameId, c) == m[gameId := Members(m, gameId)]
    ensures gameId in Deregistered(Registered(m, gameId, c), gameId, c)
  {
  }

  // ---------------------------------------------------------------------------
  // The server object

  class Server {
    const host: string
    const port: int
    var listeners: Registry
    var simulators: Registry

    /** Every websocket write, in order. */
    ghost var writes: seq<Write>
    /** Every call of `BroadcastToListeners`, in order. */
    ghost var broadcasts: seq<Broadcast>
    /** Every websocket handle closed by the server. */
    ghost var closed: set<Conn>

    /** The registry of a role. */
    function Table(t: ConnectionType): Registry
      reads this
    {
      if t == SimulatorConnection then simulators else listeners
    }

    /** `New`. */
    constructor (host: string, port: int)
      ensures this.host == host && this.port == port
      ensures listeners == map[] && simulators == map[]
      ensures writes == [] && broadcasts == [] && closed == {}
    {
      this.host := host;
      this.port := port;
      listeners := map[];
      simulators := map[];
      writes, broadcasts, closed := [], [], {};
    }

    /** The registration under the lock in `handleWebSocket`: the connection joins
        its game's set in its role's registry; the other registry is untouched. */
    method Register(gameId: string, connection: Connection)
      modifies this`listeners, this`simulators
      ensures Table(connection.connType) == Registered(old(Table(connection.connType)), gameId, connection)
      ensures connection.connType == SimulatorConnection ==> listeners == old(listeners)
      ensures connection.connType == ListenerConnection ==> simulators == old(simulators)
    {
      if connection.connType == SimulatorConnection {
        if gameId !in simulators {
          simulators := simulators[gameId := {}];
        }
        simulators := simulators[gameId := simulators[gameId] + {connection}];
      } else {
        if gameId !in listeners {
          listeners := listeners[gameId := {}];
        }
        listeners := listeners[gameId := listeners[gameId] + {connection}];
      }
    }

    /** The deferred clean-up of `handleWebSocket`: the connection leaves its
        game's set (the game's entry stays), then its handle is closed. */
    method Deregister(gameId: string, connection: Connection)
      modifies this`listeners, this`simulators, this`closed
      ensures Table(connection.connType) == Deregistered(old(Table(connection.connType)), gameId, connection)
      ensures connection.connType == SimulatorConnection ==> listeners == old(listeners)
      ensures connection.connType == ListenerConnection ==> simulators == old(simulators)
      ensures closed == old(closed) + {connection.conn}
    {
      if connection.connType == SimulatorConnection {
        if gameId in simulators {
          simulators := simulators[gameId := simulators[gameId] - {connection}];
        }
      } else {
        if gameId in listeners {
          listeners := listeners[gameId := listeners[gameId] - {connection}];
        }
      }
      closed := closed + {connection.conn};
    }

    /** `BroadcastToListeners`: one write of `message` to each listener of the
        game; a listener whose write fails (its handle is in `failing`) is removed
        and closed. Simulators and other games are untouched, and an unknown game
        gets no entry. */
    method BroadcastToListeners(gameId: string, message: Message, failing: set<Conn>)
      modifies this`listeners, this`writes, this`closed, this`broadcasts
      ensures listeners == Pruned(old(listeners), gameId, failing)
      ensures AppendsOneWriteEach(old(writes), writes, Members(old(listeners), gameId), message)
      ensures closed == old(closed) + Handles(Failed(old(listeners), gameId, failing))
      ensures broadcasts == old(broadcasts) + [Broadcast(gameId, message)]
    {
      broadcasts := broadcasts + [Broadcast(gameId, message)];
      if gameId !in listeners {
        assert writes[|old(writes)|..] == [];
        return;
      }
      // The game's set is shared with the registry in Go; pruning it in the loop
      // and storing it back afterwards has the same effect.
      var members := listeners[gameId];
      ghost var written: seq<Write> := [];
      ghost var dropped: set<Connection> := {};
      var pending := members;
      while pending != {}
        modifies this`writes, this`closed
        invariant pending <= old(listeners)[gameId]
        invariant dropped == set c | c in old(listeners)[gameId] - pending && c.conn in failing
        invariant members == old(listeners)[gameId] - dropped
        invariant writes == old(writes) + written
        invariant WritesOnceEach(written, old(listeners)[gameId] - pending, message)
        invariant closed == old(closed) + Handles(dropped)
        decreases pending
      {
        var conn :| conn in pending;
        WritesOnceEachSnoc(written, old(listeners)[gameId] - pending, message, conn);
        pending := pending - {conn};
        writes := writes + [Sent(conn, message)];
        written := written + [Sent(conn, message)];
        if conn.conn in failing {
          HandlesAdd(dropped, conn);
          dropped := dropped + {conn};
          members := members - {conn};
          closed := closed + {conn.conn};
        }
      }
      listeners := listeners[gameId := members];
      assert dropped == Failed(old(listeners), gameId, failing);
      assert writes[|old(writes)|..] == written;
      assert writes[..|old(writes)|] == old(writes);
    }

    /** `handleAPIStatus`: the counts are numbers of game ids (registry keys), not
        of connections, and the game ids listed are those with a simulator entry. */
    method GetStatus() returns (st: Status)
      ensures st.serverStatus == "running"
      ensures st.simulationCount == |simulators.Keys| && st.listenerCount == |listeners.Keys|
      ensures st.totalConnectionCount == |simulators.Keys| + |listeners.Keys|
      ensures |st.simulationGameIds| == |simulators.Keys|
      ensures forall g :: g in st.simulationGameIds <==> g in simulators
      ensures forall i, j :: 0 <= i < j < |st.simulationGameIds| ==> st.simulationGameIds[i] != st.simulationGameIds[j]
    {
      var simulationGameIds: seq<string> := [];
      var pending := simulators.Keys;
      while pending != {}
        invariant pending <= simulators.Keys
        invariant forall g :: g in simulationGameIds <==> g in simulators.Keys - pending
        invariant forall i, j :: 0 <= i < j < |simulationGameIds| ==> simulationGameIds[i] != simulationGameIds[j]
        invariant |simulationGameIds| + |pending| == |simulators.Keys|
        decreases pending
      {
        var gameId :| gameId in pending;
        assert gameId !in simulationGameIds;
        simulationGameIds := simulationGameIds + [gameId];
        pending := pending - {gameId};
      }
      st := Status("running", |simulators|, |listeners|, |simulators| + |listeners|, simulationGameIds);
    }

    /** The server after the first `i` messages of a connection of `gameId`
        were broadcast, starting from the registry `listeners0` (whose game had
        the listeners `members`) and the traces `writes0`, `closed0` and
        `broadcasts0`; `marks` cuts the new writes into one round per message. */
    ghost predicate ServedUpTo(gameId: string, messages: seq<Message>, i: nat, failing: nat -> set<Conn>, members: set<Connection>,
                               listeners0: Registry, writes0: seq<Write>, closed0: set<Conn>, broadcasts0: seq<Broadcast>, marks: seq<nat>)
      requires i <= |messages|
      reads this`listeners, this`writes, this`closed, this`broadcasts
    {
      && broadcasts == broadcasts0 + BroadcastsOf(gameId, messages[..i])
      && listeners.Keys == listeners0.Keys
      && listeners - {gameId} == listeners0 - {gameId}
      && Members(listeners, gameId) == StillListening(members, i, failing)
      && ExtendsBroadcasts(writes0, writes, marks, members, messages, i, failing)
      && closed == closed0 + Handles(members - StillListening(members, i, failing))
    }

    /** One turn of the read loop: message `i` is broadcast to the listeners
        still registered. */
    method ServeRound(gameId: string, messages: seq<Message>, i: nat, failing: nat -> set<Conn>, ghost members: set<Connection>,
                      ghost listeners0: Registry, ghost writes0: seq<Write>, ghost closed0: set<Conn>, ghost broadcasts0: seq<Broadcast>,
                      ghost marks: seq<nat>)
      returns (ghost marks': seq<nat>)
      requires i < |messages|
      requires ServedUpTo(gameId, messages, i, failing, members, listeners0, writes0, closed0, broadcasts0, marks)
      modifies this`listeners, this`writes, this`closed, this`broadcasts
      ensures ServedUpTo(gameId, messages, i + 1, failing, members, listeners0, writes0, closed0, broadcasts0, marks')
    {
      BroadcastsOfSnoc(gameId, messages, i);
      DroppedSnoc(members, i, failing, Failed(listeners, gameId, failing(i)), closed0);
      ghost var before := writes;
      BroadcastToListeners(gameId, messages[i], failing(i));
      BroadcastStep(writes0, before, writes, marks, members, messages, i, failing);
      marks' := marks + [|writes| - |writes0|];
    }

    /** The read loop of `handleWebSocket`: every message read, in order, is
        broadcast to the listeners of the connection's game, until the first read
        error. Message `i` is written once to each listener still registered
        after the broadcasts before it (`marks` cuts the writes into one round
        per message); a listener is removed and closed exactly when a write to
        it fails. Other games and the simulators are untouched. */
    method ServeMessages(gameId: string, messages: seq<Message>, failing: nat -> set<Conn>)
      returns (ghost marks: seq<nat>)
      modifies this`listeners, this`writes, this`closed, this`broadcasts
      ensures broadcasts == old(broadcasts) + BroadcastsOf(gameId, messages)
      ensures listeners.Keys == old(listeners).Keys
      ensures listeners - {gameId} == old(listeners) - {gameId}
      ensures Members(listeners, gameId) == StillListening(Members(old(listeners), gameId), |messages|, failing)
      ensures ExtendsBroadcasts(old(writes), writes, marks, Members(old(listeners), gameId), messages, |messages|, failing)
      ensures closed == old(closed) + Handles(Members(old(listeners), gameId) - Members(listeners, gameId))
    {
      ghost var members := Members(listeners, gameId);
      assert writes[|writes|..] == [];
      assert messages[..0] == [];
      marks := [0];
      for i := 0 to |messages|
        invariant ServedUpTo(gameId, messages, i, failing, members, old(listeners), old(writes), old(closed), old(broadcasts), marks)
      {
        marks := ServeRound(gameId, messages, i, failing, members, old(listeners), old(writes), old(closed), old(broadcasts), marks);
      }
      assert messages[..|messages|] == messages;
    }

    /** `handleWebSocket` for one request on `/ws/game/{gameId}?type=connType`,
        after a successful upgrade to the websocket handle `conn`. `messages` are
        the frames read before the first read error; `failing(i)` are the handles
        whose write fails during the i-th broadcast. A refused role registers
        nothing; otherwise the connection is registered, every message read is
        broadcast to the game's listeners, and the connection is deregistered. */
    method HandleWebSocket(gameId: string, connType: string, conn: Conn, messages: seq<Message>, failing: nat -> set<Conn>)
      returns (connection: Connection?, ghost marks: seq<nat>)
      modifies this`listeners, this`simulators, this`writes, this`closed, this`broadcasts
      ensures connection != null <==> ParseConnectionType(connType).Some?
      ensures connection != null ==>
        fresh(connection) && connection.conn == conn && connection.connType == ParseConnectionType(connType).value
      ensures connection == null ==>
        && listeners == old(listeners) && simulators == old(simulators)
        && writes == old(writes) && broadcasts == old(broadcasts) && closed == old(closed) + {conn}
      ensures connection != null ==> broadcasts == old(broadcasts) + BroadcastsOf(gameId, messages)
      ensures connection != null ==> gameId in Table(connection.connType) && connection !in Table(connection.connType)[gameId]
      ensures listeners - {gameId} == old(listeners) - {gameId}
      ensures connection != null && connection.connType == SimulatorConnection ==> listeners.Keys == old(listeners.Keys)
      ensures connection != null && connection.connType == ListenerConnection ==> listeners.Keys == old(listeners.Keys) + {gameId}
      ensures Members(listeners, gameId) <= Members(old(listeners), gameId)
      ensures connection != null ==>
        Members(listeners, gameId) == StillListening(Members(old(listeners), gameId), |messages|, failing)
      ensures connection != null && connection.connType == ListenerConnection ==> simulators == old(simulators)
      ensures connection != null && connection.connType == SimulatorConnection ==>
        simulators == old(simulators)[gameId := Members(old(simulators), gameId)]
      ensures connection != null ==>
        ExtendsBroadcasts(old(writes), writes, marks, Audience(Members(old(listeners), gameId), connection), messages, |messages|, failing)
      ensures connection != null ==>
        var audience := Audience(Members(old(listeners), gameId), connection);
        closed == old(closed) + Handles(audience - StillListening(audience, |messages|, failing)) + {conn}
    {
      var role := ParseConnectionType(connType);
      if role.None? {
        closed := closed + {conn};
        return null, [];
      }
      connection := new Connection(conn, role.value);
      Register(gameId, connection);
      assert Members(listeners, gameId) == Audience(Members(old(listeners), gameId), connection);
      marks := ServeMessages(gameId, messages, failing);
      assert connection !in Members(old(simulators), gameId);
      Deregister(gameId, connection);
      if connection.connType == SimulatorConnection {
        RegisterThenDeregister(old(simulators), gameId, connection);
      } else {
        StillListeningWithout(Members(old(listeners), gameId), connection, |messages|, failing);
      }
    }
  }

  // ---------------------------------------------------------------------------
  // Client scenarios

  /** Two listeners of one game count as one in the status report, and the game
      is still counted after both have left. */
  method StatusCountsGames() returns (whileConnected: Status, afterLeaving: Status)
    ensures whileConnected.listenerCount == 1 && whileConnected.simulationCount == 0
    ensures afterLeaving.listenerCount == 1 && afterLeaving.totalConnectionCount == 1
    ensures afterLeaving.simulationGameIds == []
  {
    var s := new Server("localhost", 8080);
    var first := new Connection(1, ListenerConnection);
    var second := new Connection(2, ListenerConnection);
    s.Register("0022000180", first);
    s.Register("0022000180", second);
    whileConnected := s.GetStatus();
    s.Deregister("0022000180", first);
    s.Deregister("0022000180", second);
    afterLeaving := s.GetStatus();
  }

  /** A broadcast to three listeners of which one fails removes exactly the
      failed one and keeps the other two. */
  lemma BroadcastDropsFailedListener(a: Connection, b: Connection, c: Connection)
    requires a.conn == 1 && b.conn == 2 && c.conn == 3
    ensures var m := Registered(Registered(Registered(map[], "0022000180", a), "0022000180", b), "0022000180", c);
            && Failed(m, "0022000180", {2}) == {b}
            && Members(Pruned(m, "0022000180", {2}), "0022000180") == {a, c}
  {
  }
}
