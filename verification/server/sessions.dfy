/**
 The connection side of pkg/server/server.go as it is written: tunnel, connection and server objects updated in place.
 Every method is proved to make the step of SessionsSpec, or of Lookups, that bears its name; the tunnel objects are
 their own names.

 A goroutine's local variables are arguments here: the tunnel that a user handler looked up, the session of an accept
 loop. Which goroutines are alive is ghost state.
 */
module Sessions {
  import opened Options
  import opened SessionsSpec
  import opened Lookups

  /** TunnelInfo; its semaphore is the count of permits taken, its listener a port and whether it is open. */
  class TunnelInfo {
    const remotePort: nat
    ghost const owner: nat
    var localAddr: string
    var name: string
    var connTimeout: int
    var held: int
    var activeConns: int
    var listening: bool

    constructor (port: nat, addr: string, ghost owner: nat)
      ensures Value() == Tunnel(port, owner, addr, "", 0, 0, 0, true)
    {
      this.remotePort, this.owner, this.localAddr, this.name, this.connTimeout := port, owner, addr, "", 0;
      this.held, this.activeConns, this.listening := 0, 0, true;
    }

    ghost function Value(): Tunnel
      reads this
    {
      Tunnel(remotePort, owner, localAddr, name, connTimeout, held, activeConns, listening)
    }
  }

  class ConnectionInfo {
    const id: nat
    var tunnels: map<nat, TunnelInfo>

    constructor (id: nat)
      ensures this.id == id && tunnels == map[]
    {
      this.id, this.tunnels := id, map[];
    }
  }

  class Server {
    const lim: Limits
    var held: int
    var activeConns: map<nat, ConnectionInfo>
    var bound: map<nat, TunnelInfo>
    var outside: set<nat>
    ghost var starting: set<nat>
    ghost var users: map<nat, User<TunnelInfo>>
    ghost var made: set<TunnelInfo>

    constructor (lim: Limits)
      ensures Valid() && this.lim == lim && View() == Initial()
    {
      this.lim, this.held, this.activeConns, this.bound, this.outside := lim, 0, map[], map[], {};
      this.starting, this.users, this.made := {}, map[], {};
    }

    ghost predicate Valid()
      reads this, activeConns.Values
    {
      && (forall c :: c in activeConns ==> activeConns[c].id == c)
      && (forall c, p :: c in activeConns && p in activeConns[c].tunnels ==> activeConns[c].tunnels[p] in made)
      && (forall p :: p in bound ==> bound[p] in made && bound[p].remotePort == p)
      && (forall u :: u in users ==> users[u].tunnel in made)
    }

    /** The Tunnels map of each session. */
    ghost function Maps(): map<nat, map<nat, TunnelInfo>>
      reads `activeConns, activeConns.Values
    {
      map c | c in activeConns :: activeConns[c].tunnels
    }

    /** The fields of each tunnel object. */
    ghost function Tunnels(): map<TunnelInfo, Tunnel>
      reads `made, made
    {
      map t | t in made :: t.Value()
    }

    ghost function View(): State<TunnelInfo>
      reads this, activeConns.Values, made
    {
      State(held, starting, Maps(), Tunnels(), bound, outside, users)
    }

    ghost predicate Live(conn: ConnectionInfo)
      reads this
    {
      conn.id in activeConns && activeConns[conn.id] == conn
    }

    /** net.Listen; the port it finds is entered among the bound ones with the tunnel that takes the listener. */
    method Listen(port: nat, choice: nat, able: bool) returns (p: Option<nat>)
      ensures p == SessionsSpec.Listen(View(), port, choice, able)
    {
      var q := if port == 0 then choice else port;
      if !able || q == 0 || q > MAX_TCP_PORT || q in bound || q in outside {
        return None;
      }
      return Some(q);
    }

    /** The operating system lets go of a tunnel's socket. */
    method Unbind(t: TunnelInfo)
      requires Valid()
      modifies `bound
      ensures Valid() && bound == map p | p in old(bound) && old(bound)[p] != t :: old(bound)[p]
    {
      if t.remotePort in bound && bound[t.remotePort] == t {
        bound := bound - {t.remotePort};
      }
    }

    /** Listener.Close */
    method Close(t: TunnelInfo)
      requires Valid() && t in made
      modifies `bound, t`listening
      ensures Valid() && View() == CloseAll(old(View()), {t})
    {
      Unbind(t);
      t.listening := false;
      assert Maps() == old(Maps());
      assert Tunnels() == old(Tunnels())[t := t.Value()];
      CloseOne(old(View()), t, bound);
    }

    /** The end of handleForwardRequest: a new tunnel object takes the open listener. */
    method AddTunnel(conn: ConnectionInfo, addr: string, actualPort: nat)
      requires Valid() && Live(conn) && actualPort !in bound
      modifies `made, `bound, conn
      ensures Valid() && actualPort in conn.tunnels && fresh(conn.tunnels[actualPort])
      ensures View() == SessionsSpec.AddTunnel(old(View()), conn.id, addr, actualPort, conn.tunnels[actualPort])
    {
      var t := new TunnelInfo(actualPort, addr, conn.id);
      Enter(conn, t);
    }

    /** The new object goes into the table of listening sockets and into the session's map. */
    method Enter(conn: ConnectionInfo, t: TunnelInfo)
      requires Valid() && Live(conn) && t !in made
      modifies `made, `bound, conn
      ensures Valid() && t.remotePort in conn.tunnels && conn.tunnels[t.remotePort] == t
      ensures Maps() == old(Maps())[conn.id := old(conn.tunnels)[t.remotePort := t]]
      ensures Tunnels() == old(Tunnels())[t := t.Value()] && bound == old(bound)[t.remotePort := t]
    {
      bound := bound[t.remotePort := t];
      conn.tunnels := conn.tunnels[t.remotePort := t];
      made := made + {t};
    }

    /** handleForwardRequest */
    method HandleForwardRequest(conn: ConnectionInfo, addr: string, port: nat, choice: nat, able: bool)
      returns (r: Reply)
      requires Valid() && Live(conn)
      modifies `bound, `made, conn
      ensures Valid()
      ensures match Grant(lim, old(View()), conn.id, port, choice, able)
        case None => r == No && View() == old(View())
        case Some(p) =>
          && r == Port(p) && p in conn.tunnels && fresh(conn.tunnels[p])
          && View() == SessionsSpec.AddTunnel(old(View()), conn.id, addr, p, conn.tunnels[p])
    {
      if port != 0 && !lim.IsValidPort(port) {
        return No;
      }
      if |conn.tunnels| >= lim.maxTunnels {
        return No;
      }
      var ln := Listen(port, choice, able);
      if ln.None? {
        return No;
      }
      AddTunnel(conn, addr, ln.value);
      return Port(ln.value);
    }

    /** handleCancelForwardRequest */
    method HandleCancelForwardRequest(conn: ConnectionInfo, port: nat) returns (r: Reply)
      requires Valid() && Live(conn)
      modifies `bound, conn, if port in conn.tunnels then {conn.tunnels[port]} else {}
      ensures Valid()
      ensures View() == DoCancel(old(View()), conn.id, port).0 && r == DoCancel(old(View()), conn.id, port).1
    {
      if port !in conn.tunnels {
        return No;
      }
      Close(conn.tunnels[port]);
      Forget(conn, port);
      return Yes;
    }

    /** The session's map loses a port. */
    method Forget(conn: ConnectionInfo, port: nat)
      requires Valid() && Live(conn)
      modifies conn
      ensures Valid() && Tunnels() == old(Tunnels())
      ensures Maps() == old(Maps())[conn.id := old(conn.tunnels) - {port}]
    {
      conn.tunnels := conn.tunnels - {port};
    }

    /** handleTunnelInfoRequest */
    method HandleTunnelInfoRequest(conn: ConnectionInfo, port: nat, name: string, localAddr: string, timeout: int)
      returns (r: Reply)
      requires Valid() && Live(conn)
      modifies if port in conn.tunnels then {conn.tunnels[port]} else {}
      ensures Valid()
      ensures Closed(old(View()))
      ensures var (s', reply) := DoInfo(old(View()), conn.id, port, name, localAddr, timeout);
        View() == s' && r == reply
    {
      if port in conn.tunnels {
        var tunnel := conn.tunnels[port];
        tunnel.name := name;
        tunnel.localAddr := localAddr;
        tunnel.connTimeout := timeout;
        assert Maps() == old(Maps());
        assert Tunnels() == old(Tunnels())[tunnel := tunnel.Value()];
      }
      return Yes;
    }

    /** The accept loop of Start, up to the handler it starts. */
    method Accept(ghost cid: nat) returns (r: Reply)
      requires Valid() && Enabled(View(), Connect(cid))
      modifies `held, `starting
      ensures Valid()
      ensures View() == Step(lim, old(View()), Connect(cid)).0 && r == Step(lim, old(View()), Connect(cid)).1
    {
      if held >= lim.maxConnections {
        return No;
      }
      held := held + 1;
      starting := starting + {cid};
      return Yes;
    }

    /** handleConnection when the address is blocked or the handshake fails: only the deferred Release runs. */
    method TurnAway(ghost cid: nat)
      requires Valid() && cid in starting
      modifies `held, `starting
      ensures Valid()
      ensures View() == Step(lim, old(View()), SessionsSpec.TurnAway(cid)).0
    {
      held := held - 1;
      starting := starting - {cid};
    }

    /** handleConnection after the handshake. */
    method Establish(sessionId: nat) returns (conn: ConnectionInfo)
      requires Valid() && sessionId in starting
      modifies `activeConns, `starting
      ensures Valid() && Live(conn) && conn.id == sessionId && fresh(conn)
      ensures View() == Step(lim, old(View()), SessionsSpec.Establish(sessionId)).0
    {
      conn := new ConnectionInfo(sessionId);
      Remember(conn);
      starting := starting - {sessionId};
      assert Tunnels() == old(Tunnels());
    }

    method Remember(conn: ConnectionInfo)
      requires Valid() && conn.tunnels == map[]
      modifies `activeConns
      ensures Valid() && activeConns == old(activeConns)[conn.id := conn]
      ensures Maps() == old(Maps())[conn.id := map[]]
    {
      activeConns := activeConns[conn.id := conn];
    }

    /** The cleanup loop of handleConnection. */
    method CloseListeners(conn: ConnectionInfo)
      requires Valid() && Live(conn)
      modifies `bound, conn.tunnels.Values`listening
      ensures Valid()
      ensures View() == CloseAll(old(View()), conn.tunnels.Values)
    {
      ghost var before := View();
      ghost var done: set<TunnelInfo> := {};
      var todo := conn.tunnels.Keys;
      while todo != {}
        invariant Valid() && todo <= conn.tunnels.Keys
        invariant done <= conn.tunnels.Values && forall p :: p in conn.tunnels ==> p in todo || conn.tunnels[p] in done
        invariant View() == CloseAll(before, done)
        decreases |todo|
      {
        var port :| port in todo;
        var tunnel := conn.tunnels[port];
        Close(tunnel);
        todo := todo - {port};
        CloseOneMore(before, done, tunnel);
        done := done + {tunnel};
      }
      assert done == conn.tunnels.Values;
    }

    /** handleConnection once the connection is gone. */
    method Disconnect(conn: ConnectionInfo)
      requires Valid() && Live(conn)
      modifies `bound, `activeConns, `held, conn.tunnels.Values`listening
      ensures Valid()
      ensures View() == DoDisconnect(old(View()), conn.id).0
    {
      CloseListeners(conn);
      Leave(conn);
    }

    /** The session is deleted, and the deferred release gives its permit back. */
    method Leave(conn: ConnectionInfo)
      requires Valid() && Live(conn)
      modifies `activeConns, `held
      ensures Valid()
      ensures View() == old(View()).(sessions := old(View()).sessions - {conn.id}, held := old(View()).held - 1)
    {
      activeConns := activeConns - {conn.id};
      held := held - 1;
      assert Maps() == old(Maps()) - {conn.id};
      assert Tunnels() == old(Tunnels());
    }

    /**
     One round of the accept loop of `listener`, which serves port `actualPort` of session `conn`. The session may have
     ended meanwhile. `s` is the state with the maps of all sessions there have been.
     */
    method AcceptUser(conn: ConnectionInfo, actualPort: nat, ghost listener: TunnelInfo, ghost uid: nat,
                      ghost s: Full<TunnelInfo>)
      returns (admitted: bool)
      requires Valid() && s.base == View() && MayAdmit(s, listener, uid)
      requires conn.id in s.maps && s.maps[conn.id] == conn.tunnels && conn.tunnels.Values <= made
      requires listener.owner == conn.id && listener.remotePort == actualPort
      modifies if actualPort in conn.tunnels then {conn.tunnels[actualPort]} else {}
      ensures Valid() && View() == DoAdmit(lim, s, listener, uid).base
      ensures admitted <==> uid in DoAdmit(lim, s, listener, uid).entering
    {
      if actualPort !in conn.tunnels {
        return false;
      }
      var tunnel := conn.tunnels[actualPort];
      assert Present(s, conn.id, actualPort);
      if tunnel.held >= lim.maxConnsPerTunnel {
        return false;
      }
      TakePermit(conn.tunnels[actualPort]);
      return true;
    }

    method TakePermit(tunnel: TunnelInfo)
      requires Valid() && tunnel in made
      modifies tunnel
      ensures Valid() && Maps() == old(Maps())
      ensures var r := old(tunnel.Value());
        Tunnels() == old(Tunnels())[tunnel := r.(held := r.held + 1, activeConns := r.activeConns + 1)]
    {
      tunnel.held := tunnel.held + 1;
      tunnel.activeConns := tunnel.activeConns + 1;
    }

    /** The handler's own lookup; without a tunnel it returns at once and its deferred function releases nothing. */
    method LookUp(conn: ConnectionInfo, actualPort: nat, ghost uid: nat, ghost s: Full<TunnelInfo>)
      returns (tunnel: TunnelInfo?)
      requires Valid() && s.base == View() && uid in s.entering
      requires conn.id in s.maps && s.maps[conn.id] == conn.tunnels && conn.tunnels.Values <= made
      requires s.entering[uid].cid == conn.id && s.entering[uid].port == actualPort
      modifies `users
      ensures Valid() && View() == DoLookUp(s, uid).base
      ensures tunnel != null <==> actualPort in conn.tunnels
      ensures tunnel != null ==> uid in users && users[uid].tunnel == tunnel
    {
      if actualPort !in conn.tunnels {
        return null;
      }
      tunnel := conn.tunnels[actualPort];
      users := users[uid := User(conn.tunnels[actualPort], false)];
    }

    /** The deferred function of handleClientConnection. */
    method Release(ghost uid: nat, tunnel: TunnelInfo)
      requires Valid() && uid in users && users[uid].tunnel == tunnel
      modifies `users, tunnel
      ensures Valid()
      ensures Closed(old(View())) && View() == DoFinish(old(View()), uid).0
    {
      tunnel.held := tunnel.held - 1;
      tunnel.activeConns := tunnel.activeConns - 1;
      users := users - {uid};
      assert Maps() == old(Maps());
      assert Tunnels() == old(Tunnels())[tunnel := tunnel.Value()];
    }

    /** handleClientConnection up to its relay loops; `accepted` is the answer to OpenChannel. */
    method OpenChannel(ghost uid: nat, tunnel: TunnelInfo, accepted: bool) returns (r: Reply)
      requires Valid() && uid in users && users[uid].tunnel == tunnel
      modifies `users, tunnel
      ensures Valid()
      ensures Closed(old(View()))
      ensures var (s', reply) := DoOpen(old(View()), uid, accepted); View() == s' && r == reply
    {
      if tunnel.localAddr == "" || !accepted {
        Release(uid, tunnel);
        return No;
      }
      users := users[uid := users[uid].(relaying := true)];
      return Yes;
    }
  }

  lemma CloseOne<T>(s: State<T>, t: T, bound: map<nat, T>)
    requires t in s.tunnels && bound == map p | p in s.bound && s.bound[p] != t :: s.bound[p]
    ensures CloseAll(s, {t}) == s.(bound := bound, tunnels := s.tunnels[t := s.tunnels[t].(listening := false)])
  {
  }

  lemma CloseOneMore<T>(s: State<T>, ts: set<T>, t: T)
    ensures CloseAll(CloseAll(s, ts), {t}) == CloseAll(s, ts + {t})
  {
  }
}
