/** The connection tables of a host: socket pairs, application keys and ephemeral ports. */
module ConnTable {
  import opened Wrappers
  import opened SeqNum
  import Fsm

  datatype Addr = Unspecified | Addr(n: nat)

  /** A port of -1 is unspecified. */
  datatype SockPair = SockPair(localAddr: Addr, remoteAddr: Addr, localPort: int, remotePort: int)

  datatype AppConnKey = AppConnKey(appGateIndex: int, connId: int)

  const EPHEMERAL_PORTRANGE_START := 1024
  const EPHEMERAL_PORTRANGE_END := 5000

  predicate Ephemeral(port: int) {
    EPHEMERAL_PORTRANGE_START <= port < EPHEMERAL_PORTRANGE_END
  }

  /** The socket pair with its remote half blank, as a listener has it. */
  function Listening(key: SockPair): SockPair {
    key.(remoteAddr := Unspecified, remotePort := -1)
  }

  /** The key under which findConnForSegment finds a connection for a segment whose own socket pair is `full`. */
  function FindKey(keys: set<SockPair>, full: SockPair): Option<SockPair> {
    var noLocal := full.(localAddr := Unspecified);
    if full in keys then Some(full)
    else if noLocal in keys then Some(noLocal)
    else if Listening(full) in keys then Some(Listening(full))
    else if Listening(noLocal) in keys then Some(Listening(noLocal))
    else None
  }

  /** Key `k` fits the segment: each half is the segment's own, or blank where a key may be blank. */
  predicate Fits(k: SockPair, full: SockPair) {
    && k.localPort == full.localPort
    && (k.localAddr == full.localAddr || k.localAddr == Unspecified)
    && ((k.remoteAddr == full.remoteAddr && k.remotePort == full.remotePort)
        || (k.remoteAddr == Unspecified && k.remotePort == -1))
  }

  /** `k` is at least as specific as `l`: the remote half decides, then the local address. */
  predicate AsSpecific(k: SockPair, l: SockPair, full: SockPair) {
    var kr, lr := k.remoteAddr == full.remoteAddr && k.remotePort == full.remotePort,
                  l.remoteAddr == full.remoteAddr && l.remotePort == full.remotePort;
    (lr ==> kr) && (kr == lr && l.localAddr == full.localAddr ==> k.localAddr == full.localAddr)
  }

  /** Demultiplexing finds a connection exactly if some key fits, and then the most specific one. */
  lemma FindKeyIsMostSpecific(keys: set<SockPair>, full: SockPair)
    ensures FindKey(keys, full).None? <==> forall k :: k in keys ==> !Fits(k, full)
    ensures FindKey(keys, full).Some? ==>
              var k := FindKey(keys, full).value;
              k in keys && Fits(k, full) && forall l :: l in keys && Fits(l, full) ==> AsSpecific(k, l, full)
  {
    forall k | k in keys && Fits(k, full)
      ensures k in {full, full.(localAddr := Unspecified), Listening(full), Listening(full.(localAddr := Unspecified))}
    {
    }
  }

  /** How many keys use local port `port`. */
  function PortCount(keys: set<SockPair>, port: int): nat {
    |set k | k in keys && k.localPort == port|
  }

  lemma PortCountAdd(keys: set<SockPair>, key: SockPair, port: int)
    requires key !in keys
    ensures PortCount(keys + {key}, port) == PortCount(keys, port) + (if key.localPort == port then 1 else 0)
  {
    var before, after := set k | k in keys && k.localPort == port, set k | k in keys + {key} && k.localPort == port;
    assert after == if key.localPort == port then before + {key} else before;
  }

  lemma PortCountRemove(keys: set<SockPair>, key: SockPair, port: int)
    requires key in keys
    ensures PortCount(keys - {key}, port) == PortCount(keys, port) - (if key.localPort == port then 1 else 0)
  {
    PortCountAdd(keys - {key}, key, port);
    assert keys - {key} + {key} == keys;
  }

  lemma PortCountZero(keys: set<SockPair>, port: int)
    ensures PortCount(keys, port) == 0 <==> forall k :: k in keys ==> k.localPort != port
  {
    var used := set k | k in keys && k.localPort == port;
    if k :| k in keys && k.localPort == port {
      assert k in used;
    } else {
      assert used == {};
    }
  }

  /** `used` is exactly the multiset of ephemeral local ports of `keys`. */
  ghost predicate Tracks(used: multiset<int>, keys: set<SockPair>) {
    forall port :: used[port] == if Ephemeral(port) then PortCount(keys, port) else 0
  }

  lemma TracksAdd(used: multiset<int>, keys: set<SockPair>, key: SockPair)
    requires Tracks(used, keys) && key !in keys
    ensures Tracks(if Ephemeral(key.localPort) then used + multiset{key.localPort} else used, keys + {key})
  {
    forall port
      ensures PortCount(keys + {key}, port) == PortCount(keys, port) + (if key.localPort == port then 1 else 0)
    {
      PortCountAdd(keys, key, port);
    }
  }

  lemma TracksRemove(used: multiset<int>, keys: set<SockPair>, key: SockPair)
    requires Tracks(used, keys) && key in keys
    ensures Tracks(used - multiset{key.localPort}, keys - {key})
  {
    forall port
      ensures PortCount(keys - {key}, port) == PortCount(keys, port) - (if key.localPort == port then 1 else 0)
    {
      PortCountRemove(keys, key, port);
    }
  }

  /** The free ports of the range are those no table entry uses. */
  lemma FreePorts(used: multiset<int>, keys: set<SockPair>)
    requires Tracks(used, keys)
    ensures forall port :: Ephemeral(port) ==> (port !in used <==> forall k :: k in keys ==> k.localPort != port)
  {
    forall port | Ephemeral(port)
      ensures port !in used <==> forall k :: k in keys ==> k.localPort != port
    {
      PortCountZero(keys, port);
    }
  }

  lemma TracksMove(used: multiset<int>, keys: set<SockPair>, before: SockPair, key: SockPair)
    requires Tracks(used, keys) && before in keys && before.localPort == key.localPort
    requires key == before || key !in keys
    ensures Tracks(used, keys - {before} + {key})
  {
    forall port
      ensures PortCount(keys - {before} + {key}, port) == PortCount(keys, port)
    {
      PortCountRemove(keys, before, port);
      PortCountAdd(keys - {before}, key, port);
    }
  }

  class RQConnection {
    var localAddr: Addr
    var remoteAddr: Addr
    var localPort: int
    var remotePort: int
    const appGateIndex: int
    var connId: int
    var state: Fsm.Conn
    var fork: bool

    function Pair(): SockPair
      reads this`localAddr, this`remoteAddr, this`localPort, this`remotePort
    {
      SockPair(localAddr, remoteAddr, localPort, remotePort)
    }

    function AppKey(): AppConnKey
      reads this`connId
    {
      AppConnKey(appGateIndex, connId)
    }

    constructor (appGateIndex: int, connId: int, maxRcvBuffer: uint32)
      ensures Pair() == SockPair(Unspecified, Unspecified, -1, -1) && AppKey() == AppConnKey(appGateIndex, connId)
      ensures state == Fsm.Fresh(maxRcvBuffer) && !fork
    {
      this.appGateIndex, this.connId := appGateIndex, connId;
      localAddr, remoteAddr, localPort, remotePort := Unspecified, Unspecified, -1, -1;
      state, fork := Fsm.Fresh(maxRcvBuffer), false;
    }

    /** cloneListeningConnection, as far as the tables and the state see it. The clone's own variables are not
        configured. */
    method CloneListeningConnection() returns (conn: RQConnection)
      ensures fresh(conn) && conn.Pair() == Listening(Pair()) && conn.AppKey() == AppKey()
      ensures conn.state == Fsm.Fresh(0).(st := Fsm.LISTEN) && conn.fork
    {
      conn := new RQConnection(appGateIndex, connId, 0);
      conn.state, conn.fork := conn.state.(active := false), true;
      conn.localAddr := localAddr;
      conn.localPort := localPort;
      conn.state := conn.state.(st := Fsm.LISTEN);
    }

    /** A step of the connection's state machine. */
    method Advance(a: Fsm.Action)
      requires Fsm.Step(state, a).Some?
      modifies this`state
      ensures Some(state) == Fsm.Step(old(state), a)
    {
      state := Fsm.Step(state, a).value;
    }
  }

  /** `conn` moved from key `before` to `full`, and a clone, if there is one, listens on the local half of `before`. */
  ghost function TableAfterSyn(table: map<SockPair, RQConnection>, before: SockPair, full: SockPair, conn: RQConnection,
                               clone: RQConnection?): map<SockPair, RQConnection> {
    var moved := (table - {before})[full := conn];
    if clone == null then moved else moved[Listening(before) := clone]
  }

  /** Under the condition of the fork no other connection loses its entry. */
  lemma OthersKeepTheirEntries(table: map<SockPair, RQConnection>, before: SockPair, full: SockPair, conn: RQConnection,
                               clone: RQConnection?)
    requires before in table && FindKey(table.Keys, full) == Some(before)
    requires clone == null || before == Listening(before) || Listening(before) !in table
    ensures var after := TableAfterSyn(table, before, full, conn, clone);
            forall k :: k in table && k != before ==> k in after && after[k] == table[k]
  {
  }

  class RaptorQ {
    var rqConnMap: map<SockPair, RQConnection>
    var rqAppConnMap: map<AppConnKey, RQConnection>
    var usedEphemeralPorts: multiset<int>
    var lastEphemeralPort: int

    /** Every table entry sits under its connection's own key, the used ports are exactly the ephemeral local ports of
        the socket-pair table with their multiplicities, and the search position is in range. */
    ghost predicate Valid()
      reads this, rqAppConnMap.Values`connId
      reads rqConnMap.Values`localAddr, rqConnMap.Values`remoteAddr, rqConnMap.Values`localPort,
            rqConnMap.Values`remotePort
    {
      && (forall k :: k in rqConnMap ==> rqConnMap[k].Pair() == k)
      && (forall a :: a in rqAppConnMap ==> rqAppConnMap[a].AppKey() == a)
      && Tracks(usedEphemeralPorts, rqConnMap.Keys)
      && Ephemeral(lastEphemeralPort)
    }

    constructor ()
      ensures Valid() && rqConnMap == map[] && rqAppConnMap == map[]
    {
      rqConnMap, rqAppConnMap, usedEphemeralPorts, lastEphemeralPort := map[], map[], multiset{},
        EPHEMERAL_PORTRANGE_START;
    }

    method FindConnForSegment(srcAddr: Addr, destAddr: Addr, srcPort: int, destPort: int)
      returns (conn: RQConnection?)
      requires Valid()
      ensures var full := SockPair(destAddr, srcAddr, destPort, srcPort);
              match FindKey(rqConnMap.Keys, full)
              case None => conn == null
              case Some(k) => k in rqConnMap && conn == rqConnMap[k]
    {
      var key := SockPair(destAddr, srcAddr, destPort, srcPort);
      var save := key;
      if key in rqConnMap {
        return rqConnMap[key];
      }
      key := key.(localAddr := Unspecified);
      if key in rqConnMap {
        return rqConnMap[key];
      }
      key := save;
      key := key.(remoteAddr := Unspecified, remotePort := -1);
      if key in rqConnMap {
        return rqConnMap[key];
      }
      key := key.(localAddr := Unspecified);
      if key in rqConnMap {
        return rqConnMap[key];
      }
      return null;
    }

    /** getEphemeralPort: the first free port of the range behind the last one given out, around its end, if there is
        one; otherwise it throws. */
    method GetEphemeralPort() returns (r: Option<int>)
      requires Valid()
      modifies this`lastEphemeralPort
      ensures Valid()
      ensures r.Some? <==> exists port :: Ephemeral(port) && port !in usedEphemeralPorts
      ensures r.Some? ==>
                && Ephemeral(r.value) && r.value !in usedEphemeralPorts && lastEphemeralPort == r.value
                && forall port :: Searched(old(lastEphemeralPort), r.value, port) ==> port in usedEphemeralPorts
    {
      var searchUntil := lastEphemeralPort;
      lastEphemeralPort := lastEphemeralPort + 1;
      if lastEphemeralPort == EPHEMERAL_PORTRANGE_END {
        lastEphemeralPort := EPHEMERAL_PORTRANGE_START;
      }
      while lastEphemeralPort in usedEphemeralPorts
        invariant Ephemeral(lastEphemeralPort) && Ephemeral(searchUntil)
        invariant forall port :: Searched(searchUntil, lastEphemeralPort, port) ==> port in usedEphemeralPorts
        decreases Remaining(searchUntil, lastEphemeralPort)
      {
        if lastEphemeralPort == searchUntil {
          return None;
        }
        SearchStep(searchUntil, lastEphemeralPort);
        lastEphemeralPort := lastEphemeralPort + 1;
        if lastEphemeralPort == EPHEMERAL_PORTRANGE_END {
          lastEphemeralPort := EPHEMERAL_PORTRANGE_START;
        }
      }
      return Some(lastEphemeralPort);
    }

    /** addSockPair, for a connection that is in no table entry. It fails, by throwing, if the key is taken. */
    method AddSockPair(conn: RQConnection, localAddr: Addr, remoteAddr: Addr, localPort: int, remotePort: int)
      returns (ok: bool)
      requires Valid() && conn !in rqConnMap.Values
      modifies this`rqConnMap, this`usedEphemeralPorts, conn`localAddr, conn`remoteAddr, conn`localPort, conn`remotePort
      ensures Valid() && conn.Pair() == SockPair(localAddr, remoteAddr, localPort, remotePort)
      ensures ok <==> conn.Pair() !in old(rqConnMap)
      ensures rqConnMap == if ok then old(rqConnMap)[conn.Pair() := conn] else old(rqConnMap)
    {
      conn.localAddr, conn.remoteAddr, conn.localPort, conn.remotePort := localAddr, remoteAddr, localPort, remotePort;
      var key := SockPair(localAddr, remoteAddr, localPort, remotePort);
      assert forall k :: k in rqConnMap ==> rqConnMap[k] in rqConnMap.Values;
      if key in rqConnMap {
        return false;
      }
      Record(conn);
      return true;
    }

    /** The entry itself, under the connection's own key, and the mark on an ephemeral port. */
    method Record(conn: RQConnection)
      requires Valid() && conn.Pair() !in rqConnMap
      modifies this`rqConnMap, this`usedEphemeralPorts
      ensures Valid() && rqConnMap == old(rqConnMap)[conn.Pair() := conn]
    {
      var key := conn.Pair();
      TracksAdd(usedEphemeralPorts, rqConnMap.Keys, key);
      rqConnMap := rqConnMap[key := conn];
      assert rqConnMap.Keys == old(rqConnMap.Keys) + {key};
      if conn.localPort >= EPHEMERAL_PORTRANGE_START && conn.localPort < EPHEMERAL_PORTRANGE_END {
        usedEphemeralPorts := usedEphemeralPorts + multiset{conn.localPort};
      }
    }

    /** updateSockPair, under its assertions. A different connection under the new key would lose its entry. */
    method UpdateSockPair(conn: RQConnection, localAddr: Addr, remoteAddr: Addr, localPort: int, remotePort: int)
      requires Valid() && conn.Pair() in rqConnMap && rqConnMap[conn.Pair()] == conn
      requires conn.localPort == localPort
      modifies this`rqConnMap, conn`localAddr, conn`remoteAddr, conn`remotePort
      ensures conn.Pair() == SockPair(localAddr, remoteAddr, localPort, remotePort)
      ensures rqConnMap == (old(rqConnMap) - {old(conn.Pair())})[conn.Pair() := conn]
      ensures old(conn.Pair()) == conn.Pair() || conn.Pair() !in old(rqConnMap) ==>
                Valid() && |rqConnMap| == |old(rqConnMap)|
    {
      var before := conn.Pair();
      rqConnMap := rqConnMap - {before};
      conn.localAddr, conn.remoteAddr, conn.remotePort := localAddr, remoteAddr, remotePort;
      var key := conn.Pair();
      rqConnMap := rqConnMap[key := conn];
      if key == before || key !in old(rqConnMap) {
        TracksMove(usedEphemeralPorts, old(rqConnMap).Keys, before, key);
        assert rqConnMap.Keys == old(rqConnMap).Keys - {before} + {key};
      }
    }

    /** removeConnection */
    method RemoveConnection(conn: RQConnection)
      requires Valid() && conn.Pair() in rqConnMap && rqConnMap[conn.Pair()] == conn
      modifies this`rqConnMap, this`rqAppConnMap, this`usedEphemeralPorts
      ensures Valid() && rqConnMap == old(rqConnMap) - {conn.Pair()}
      ensures rqAppConnMap == old(rqAppConnMap) - {conn.AppKey()}
      ensures conn !in rqConnMap.Values
    {
      rqAppConnMap := rqAppConnMap - {conn.AppKey()};
      var key2 := conn.Pair();
      TracksRemove(usedEphemeralPorts, rqConnMap.Keys, key2);
      rqConnMap := rqConnMap - {key2};
      assert rqConnMap.Keys == old(rqConnMap).Keys - {key2};
      if conn.localPort in usedEphemeralPorts {
        usedEphemeralPorts := usedEphemeralPorts - multiset{conn.localPort};
      }
    }

    /** process_OPEN_ACTIVE, as far as the tables are concerned. It throws without a full remote half; without a local
        port it takes a free ephemeral one, and then the address cannot be in use. */
    method OpenActive(conn: RQConnection, localAddr: Addr, remoteAddr: Addr, localPort: int, remotePort: int)
      returns (ok: bool)
      requires Valid() && conn !in rqConnMap.Values
      modifies this`rqConnMap, this`usedEphemeralPorts, this`lastEphemeralPort
      modifies conn`localAddr, conn`remoteAddr, conn`localPort, conn`remotePort
      ensures Valid()
      ensures rqConnMap == if ok then old(rqConnMap)[conn.Pair() := conn] else old(rqConnMap)
      ensures ok ==>
                conn.Pair() == SockPair(localAddr, remoteAddr, conn.localPort, remotePort)
                && conn.Pair() !in old(rqConnMap)
      ensures remoteAddr == Unspecified || remotePort == -1 ==> !ok
      ensures remoteAddr != Unspecified && remotePort != -1 ==>
                (ok <==> if localPort == -1
                         then exists port :: Ephemeral(port) && forall k :: k in old(rqConnMap) ==> k.localPort != port
                         else SockPair(localAddr, remoteAddr, localPort, remotePort) !in old(rqConnMap))
      ensures ok ==> if localPort != -1 then conn.localPort == localPort
                     else Ephemeral(conn.localPort) && forall k :: k in old(rqConnMap) ==> k.localPort != conn.localPort
    {
      if remoteAddr == Unspecified || remotePort == -1 {
        return false;
      }
      var lp := localPort;
      if lp == -1 {
        FreePorts(usedEphemeralPorts, rqConnMap.Keys);
        var p := GetEphemeralPort();
        if p.None? {
          return false;
        }
        lp := p.value;
      }
      ok := AddSockPair(conn, localAddr, remoteAddr, lp, remotePort);
    }

    /** process_OPEN_PASSIVE: it throws if the connection was opened before, and without a local port. */
    method OpenPassive(conn: RQConnection, localAddr: Addr, localPort: int, fork: bool) returns (ok: bool)
      requires Valid() && conn !in rqConnMap.Values && Fsm.Inv(conn.state)
      modifies this`rqConnMap, this`usedEphemeralPorts, conn`localAddr, conn`remoteAddr, conn`localPort, conn`remotePort
      modifies conn`state, conn`fork
      ensures Valid()
      ensures var key := SockPair(localAddr, Unspecified, localPort, -1);
              && (ok <==> old(conn.state.st) == Fsm.INIT && localPort != -1 && key !in old(rqConnMap))
              && rqConnMap == (if ok then old(rqConnMap)[key := conn] else old(rqConnMap))
              && (ok ==> conn.Pair() == key && conn.fork == fork)
      ensures ok ==> Some(conn.state) == Fsm.Step(old(conn.state), Fsm.Open(false))
    {
      if conn.state.st != Fsm.INIT {
        return false;
      }
      conn.fork := fork;
      if localPort == -1 {
        return false;
      }
      ok := AddSockPair(conn, localAddr, Unspecified, localPort, -1);
      if ok {
        conn.Advance(Fsm.Open(false));
      }
    }

    /** addForkedConnection: `conn` moves to the segment's own socket pair under a new connection id, and `newConn` goes
        on listening under the old id. It fails, by throwing, exactly if another connection already listens on that
        key. */
    method AddForkedConnection(conn: RQConnection, newConn: RQConnection, full: SockPair, newId: int) returns (ok: bool)
      requires Valid() && conn.Pair() in rqConnMap && rqConnMap[conn.Pair()] == conn
      requires conn.localPort == full.localPort
      requires full == conn.Pair() || full !in rqConnMap
      requires newConn !in rqConnMap.Values && newConn !in rqAppConnMap.Values
      requires newConn.AppKey() == conn.AppKey()
      requires AppConnKey(conn.appGateIndex, newId) !in rqAppConnMap
      modifies this`rqConnMap, this`usedEphemeralPorts, this`rqAppConnMap
      modifies conn`localAddr, conn`remoteAddr, conn`remotePort, conn`connId
      modifies newConn`localAddr, newConn`remoteAddr, newConn`localPort, newConn`remotePort
      ensures newConn.Pair() == old(newConn.Pair())
      ensures ok <==>
                newConn.Pair() != full && (newConn.Pair() == old(conn.Pair()) || newConn.Pair() !in old(rqConnMap))
      ensures ok ==> Valid() && conn.Pair() == full && conn.connId == newId
      ensures ok ==> rqConnMap == (old(rqConnMap) - {old(conn.Pair())})[full := conn][newConn.Pair() := newConn]
      ensures ok ==> rqAppConnMap == old(rqAppConnMap)[conn.AppKey() := conn][newConn.AppKey() := newConn]
      ensures newConn.AppKey() == old(conn.AppKey())
    {
      ok := MoveAndListen(conn, newConn, full);
      if ok {
        Reidentify(conn, newConn, newId);
      }
    }

    /** The socket-pair half of the fork. */
    method MoveAndListen(conn: RQConnection, newConn: RQConnection, full: SockPair) returns (ok: bool)
      requires Valid() && conn.Pair() in rqConnMap && rqConnMap[conn.Pair()] == conn
      requires conn.localPort == full.localPort
      requires full == conn.Pair() || full !in rqConnMap
      requires newConn !in rqConnMap.Values
      modifies this`rqConnMap, this`usedEphemeralPorts
      modifies conn`localAddr, conn`remoteAddr, conn`remotePort
      modifies newConn`localAddr, newConn`remoteAddr, newConn`localPort, newConn`remotePort
      ensures Valid() && conn.Pair() == full && newConn.Pair() == old(newConn.Pair()) && newConn != conn
      ensures ok <==>
                newConn.Pair() != full && (newConn.Pair() == old(conn.Pair()) || newConn.Pair() !in old(rqConnMap))
      ensures ok ==> rqConnMap == (old(rqConnMap) - {old(conn.Pair())})[full := conn][newConn.Pair() := newConn]
    {
      assert conn in rqConnMap.Values;
      assert forall k :: k in rqConnMap ==> rqConnMap[k] in rqConnMap.Values;
      UpdateSockPair(conn, full.localAddr, full.remoteAddr, full.localPort, full.remotePort);
      assert newConn !in rqConnMap.Values;
      ok := AddSockPair(newConn, newConn.localAddr, newConn.remoteAddr, newConn.localPort, newConn.remotePort);
    }

    /** The application-key half of the fork. */
    method Reidentify(conn: RQConnection, newConn: RQConnection, newId: int)
      requires Valid() && conn != newConn && newConn.AppKey() == conn.AppKey() && newConn !in rqAppConnMap.Values
      requires AppConnKey(conn.appGateIndex, newId) !in rqAppConnMap
      modifies this`rqAppConnMap, conn`connId
      ensures Valid() && conn.connId == newId
      ensures rqAppConnMap == old(rqAppConnMap)[conn.AppKey() := conn][newConn.AppKey() := newConn]
    {
      assert forall a :: a in rqAppConnMap ==> rqAppConnMap[a] in rqAppConnMap.Values;
      ghost var app := rqAppConnMap;
      rqAppConnMap := rqAppConnMap - {conn.AppKey()};
      conn.connId := newId;
      rqAppConnMap := rqAppConnMap[conn.AppKey() := conn];
      rqAppConnMap := rqAppConnMap[newConn.AppKey() := newConn];
    }

    /** The fork of a listening connection on a SYN. The assertions of updateSockPair hold, and the fork throws exactly
        if the connection's remote half was already filled in and somebody else is listening on its local half. */
    method Fork(conn: RQConnection, full: SockPair, newId: int) returns (clone: RQConnection, ok: bool)
      requires Valid() && full.remotePort >= 0
      requires FindKey(rqConnMap.Keys, full) == Some(conn.Pair()) && conn.Pair() in rqConnMap
               && rqConnMap[conn.Pair()] == conn
      requires AppConnKey(conn.appGateIndex, newId) !in rqAppConnMap
      modifies this`rqConnMap, this`usedEphemeralPorts, this`rqAppConnMap
      modifies conn`localAddr, conn`remoteAddr, conn`remotePort, conn`connId
      ensures fresh(clone) && clone.state == Fsm.Fresh(0).(st := Fsm.LISTEN) && clone.fork
      ensures ok <==> var k := old(conn.Pair()); k == Listening(k) || Listening(k) !in old(rqConnMap)
      ensures ok ==>
                && Valid() && clone.Pair() == Listening(old(conn.Pair())) && clone.AppKey() == old(conn.AppKey())
                && conn.Pair() == full && conn.connId == newId
                && rqConnMap == (old(rqConnMap) - {old(conn.Pair())})[full := conn][clone.Pair() := clone]
                && rqAppConnMap == old(rqAppConnMap)[conn.AppKey() := conn][clone.AppKey() := clone]
    {
      FindKeyIsMostSpecific(rqConnMap.Keys, full);
      assert conn in rqConnMap.Values;
      clone := conn.CloneListeningConnection();
      ok := AddForkedConnection(conn, clone, full, newId);
    }

    /** The tables on a SYN for a listening connection: it forks if it was opened so, or takes over the socket pair
        itself. */
    method FillIn(conn: RQConnection, full: SockPair, newId: int) returns (clone: RQConnection?, ok: bool)
      requires Valid() && full.remotePort >= 0
      requires FindKey(rqConnMap.Keys, full) == Some(conn.Pair()) && conn.Pair() in rqConnMap
               && rqConnMap[conn.Pair()] == conn
      requires AppConnKey(conn.appGateIndex, newId) !in rqAppConnMap
      modifies this`rqConnMap, this`usedEphemeralPorts, this`rqAppConnMap
      modifies conn`localAddr, conn`remoteAddr, conn`remotePort, conn`connId
      ensures ok <==> var k := old(conn.Pair()); !conn.fork || k == Listening(k) || Listening(k) !in old(rqConnMap)
      ensures ok ==>
                && Valid() && conn.Pair() == full
                && rqConnMap == TableAfterSyn(old(rqConnMap), old(conn.Pair()), full, conn, clone)
      ensures ok && !conn.fork ==> clone == null && rqAppConnMap == old(rqAppConnMap)
      ensures ok && conn.fork ==>
                && clone != null && fresh(clone) && clone.state == Fsm.Fresh(0).(st := Fsm.LISTEN) && clone.fork
                && clone.Pair() == Listening(old(conn.Pair())) && clone.AppKey() == old(conn.AppKey())
                && conn.connId == newId
                && rqAppConnMap == old(rqAppConnMap)[conn.AppKey() := conn][clone.AppKey() := clone]
    {
      if conn.fork {
        clone, ok := Fork(conn, full, newId);
      } else {
        FindKeyIsMostSpecific(rqConnMap.Keys, full);
        UpdateSockPair(conn, full.localAddr, full.remoteAddr, full.localPort, full.remotePort);
        clone, ok := null, true;
      }
    }

    /** A segment handed to the connection that findConnForSegment picks, as far as processSegmentInListen is concerned:
        only a SYN for a listening connection touches the tables, and its state machine steps. */
    method ProcessSegmentInListen(full: SockPair, newId: int, seg: Fsm.Segment)
      returns (conn: RQConnection?, clone: RQConnection?, ok: bool)
      requires Valid() && full.remotePort >= 0
      requires forall a :: a in rqAppConnMap ==> a.connId != newId
      requires forall k :: k in rqConnMap ==> Fsm.Inv(rqConnMap[k].state)
      modifies this`rqConnMap, this`usedEphemeralPorts, this`rqAppConnMap
      modifies rqConnMap.Values`localAddr, rqConnMap.Values`remoteAddr, rqConnMap.Values`remotePort
      modifies rqConnMap.Values`connId, rqConnMap.Values`state
      ensures match FindKey(old(rqConnMap.Keys), full)
              case None => conn == null
              case Some(k) => k in old(rqConnMap) && conn == old(rqConnMap)[k]
      ensures conn == null || !old(Fsm.TakesSyn(conn.state, seg)) ==>
                Valid() && ok && rqConnMap == old(rqConnMap) && (conn != null ==> conn.state == old(conn.state))
      ensures conn != null && old(Fsm.TakesSyn(conn.state, seg)) ==>
                var k := old(conn.Pair());
                && (ok <==> !conn.fork || k == Listening(k) || Listening(k) !in old(rqConnMap))
                && (ok ==>
                      && Valid() && conn.Pair() == full
                      && rqConnMap == TableAfterSyn(old(rqConnMap), k, full, conn, clone)
                      && Some(conn.state) == Fsm.Step(old(conn.state), Fsm.Arrive(seg)))
                && (ok && conn.fork ==>
                      && clone != null && fresh(clone) && clone.state == Fsm.Fresh(0).(st := Fsm.LISTEN) && clone.fork
                      && clone.Pair() == Listening(k) && clone.AppKey() == old(conn.AppKey()) && conn.connId == newId
                      && rqAppConnMap == old(rqAppConnMap)[conn.AppKey() := conn][clone.AppKey() := clone])
      ensures ok && conn != null ==>
                forall k :: k in old(rqConnMap) && k != old(conn.Pair()) ==>
                  k in rqConnMap && rqConnMap[k] == old(rqConnMap)[k]
    {
      FindKeyIsMostSpecific(rqConnMap.Keys, full);
      conn := FindConnForSegment(full.remoteAddr, full.localAddr, full.remotePort, full.localPort);
      if conn == null || !Fsm.TakesSyn(conn.state, seg) {
        return conn, null, true;
      }
      assert conn in rqConnMap.Values;
      Fsm.SynIsTaken(conn.state, seg);
      clone, ok := FillIn(conn, full, newId);
      if ok {
        conn.Advance(Fsm.Arrive(seg));
        OthersKeepTheirEntries(old(rqConnMap), old(conn.Pair()), full, conn, clone);
      }
    }

    /** A segment that fills in the connection's own socket pair: the answer to our SYN. The assertions of
        updateSockPair hold and every other connection keeps its entry. */
    method UpdateOnSegment(srcAddr: Addr, destAddr: Addr, srcPort: int, destPort: int) returns (conn: RQConnection?)
      requires Valid()
      modifies this`rqConnMap
      modifies rqConnMap.Values`localAddr, rqConnMap.Values`remoteAddr, rqConnMap.Values`remotePort
      ensures Valid() && |rqConnMap| == |old(rqConnMap)|
      ensures match FindKey(old(rqConnMap.Keys), SockPair(destAddr, srcAddr, destPort, srcPort))
              case None => conn == null && rqConnMap == old(rqConnMap)
              case Some(k) =>
                && k in old(rqConnMap) && conn == old(rqConnMap)[k]
                && conn.Pair() == SockPair(destAddr, srcAddr, destPort, srcPort)
                && rqConnMap == (old(rqConnMap) - {k})[conn.Pair() := conn]
      ensures forall k :: k in old(rqConnMap) && old(rqConnMap)[k] != conn ==>
                k in rqConnMap && rqConnMap[k] == old(rqConnMap)[k]
    {
      var full := SockPair(destAddr, srcAddr, destPort, srcPort);
      FindKeyIsMostSpecific(rqConnMap.Keys, full);
      conn := FindConnForSegment(srcAddr, destAddr, srcPort, destPort);
      if conn != null {
        assert conn in rqConnMap.Values;
        UpdateSockPair(conn, destAddr, srcAddr, destPort, srcPort);
      }
    }

    /** `port` lies behind `from` and before `at` in the search order that ends with `from` itself. */
    static predicate Searched(from: int, at: int, port: int) {
      if from < at then from < port < at
      else from < port < EPHEMERAL_PORTRANGE_END || EPHEMERAL_PORTRANGE_START <= port < at
    }

    /** One more port is looked at. */
    static lemma SearchStep(from: int, at: int)
      requires Ephemeral(from) && Ephemeral(at) && at != from
      ensures var next := if at + 1 == EPHEMERAL_PORTRANGE_END then EPHEMERAL_PORTRANGE_START else at + 1;
              && 0 <= Remaining(from, next) < Remaining(from, at)
              && forall port :: Searched(from, next, port) <==> Searched(from, at, port) || port == at
    {
    }

    static function Remaining(from: int, at: int): int {
      if from < at then from + EPHEMERAL_PORTRANGE_END - EPHEMERAL_PORTRANGE_START - at else from - at
    }
  }

  /** Opens a listener that forks, in a host without any other connection. */
  method OpenListener(full: SockPair, maxRcvBuffer: uint32) returns (rq: RaptorQ, listener: RQConnection)
    requires full.localPort != -1
    ensures fresh(rq) && fresh(listener) && rq.Valid() && rq.rqConnMap == map[Listening(full) := listener]
    ensures rq.rqAppConnMap == map[] && listener.connId == 1
    ensures listener.fork && Some(listener.state) == Fsm.Step(Fsm.Fresh(maxRcvBuffer), Fsm.Open(false))
  {
    rq := new RaptorQ();
    listener := new RQConnection(0, 1, maxRcvBuffer);
    var ok := rq.OpenPassive(listener, full.localAddr, full.localPort, true);
  }

  /** The first SYN forks the listener; then nothing more comes, and the establishment timer takes it back to LISTEN. */
  method HearOneSyn(rq: RaptorQ, listener: RQConnection, full: SockPair, seg: Fsm.Segment)
    returns (clone: RQConnection?, ok: bool)
    requires rq.Valid() && rq.rqConnMap == map[Listening(full) := listener] && rq.rqAppConnMap == map[]
    requires full.remotePort >= 0 && listener.fork && !listener.state.active && Fsm.Inv(listener.state)
    requires Fsm.TakesSyn(listener.state, seg) && seg.payloadLength == 0
    modifies rq`rqConnMap, rq`usedEphemeralPorts, rq`rqAppConnMap
    modifies listener`localAddr, listener`remoteAddr, listener`remotePort, listener`connId, listener`state
    ensures ok && clone != null && fresh(clone) && rq.Valid()
    ensures rq.rqConnMap == map[full := listener, Listening(full) := clone]
    ensures rq.rqAppConnMap.Keys == {listener.AppKey(), clone.AppKey()} && listener.connId == 2
    ensures clone.AppKey() == old(listener.AppKey()) && clone.state == Fsm.Fresh(0).(st := Fsm.LISTEN)
    ensures listener.state.st == Fsm.LISTEN && Fsm.Inv(listener.state)
  {
    Fsm.SynIsTaken(listener.state, seg);
    assert FindKey(rq.rqConnMap.Keys, full) == Some(Listening(full));
    var conn;
    conn, clone, ok := rq.ProcessSegmentInListen(full, 2, seg);
    assert conn == listener;
    Fsm.TimeoutListensAgain(listener.state);
    listener.Advance(Fsm.FireConnEstab);
  }

  /** The next SYN, for a connection that listens with its remote half filled in while somebody else is on its local
      half. */
  method HearNextSyn(rq: RaptorQ, listener: RQConnection, clone: RQConnection, full: SockPair, seg: Fsm.Segment)
    returns (ok: bool)
    requires rq.Valid() && rq.rqConnMap == map[full := listener, Listening(full) := clone]
    requires full != Listening(full) && full.remotePort >= 0 && listener.fork && Fsm.TakesSyn(listener.state, seg)
    requires Fsm.Inv(listener.state) && Fsm.Inv(clone.state)
    requires forall a :: a in rq.rqAppConnMap ==> a.connId != 3
    modifies rq, listener, clone
    ensures !ok
  {
    assert full in rq.rqConnMap && Listening(full) in rq.rqConnMap;
    assert rq.rqConnMap.Values == {listener, clone};
    var conn, again;
    conn, again, ok := rq.ProcessSegmentInListen(full, 3, seg);
  }

  /** The failing family is real: after a SYN and no more, the establishment timer takes the forked connection back to
      LISTEN with its remote half filled in, while its clone listens too, and the peer's next SYN makes the fork
      throw. */
  method SecondSynOfAPeerThrows(full: SockPair, maxRcvBuffer: uint32, seg: Fsm.Segment)
    returns (first: bool, second: bool)
    requires full.localPort != -1 && full.remotePort >= 0
    requires seg.syn && !seg.ack && !seg.rst && seg.knownFile && seg.payloadLength == 0
    ensures first && !second
  {
    var rq, listener := OpenListener(full, maxRcvBuffer);
    Fsm.OpenedListens(Fsm.Fresh(maxRcvBuffer));
    var clone;
    clone, first := HearOneSyn(rq, listener, full, seg);
    second := HearNextSyn(rq, listener, clone, full, seg);
  }
}
