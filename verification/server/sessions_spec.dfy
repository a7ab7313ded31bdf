/**
 The connection side of pkg/server/server.go as a step system: connections take a permit of the global semaphore,
 sessions own a map from port to tunnel, forward and cancel requests (section 7.1 of RFC 4254) bind and release
 listeners, user connections take a permit of their tunnel, and a disconnect closes every listener of its session.

 Tunnel objects are named by values of an arbitrary type T; the imperative server of sessions.dfy takes the objects
 themselves. What the operating system decides (which port it picks, whether a bind works) comes with the event.
 */
module SessionsSpec {
  import opened Options

  datatype Limits = Limits(maxConnections: nat, maxTunnels: nat, maxConnsPerTunnel: nat, minPort: nat, maxPort: nat) {
    /** ServerConfig.IsValidPort */
    predicate IsValidPort(port: nat) {
      port == 0 || minPort <= port <= maxPort
    }
  }

  /**
   A TunnelInfo. `held` counts the permits taken from connSem, `listening` tells whether its listener is open, and
   `owner` is the session whose accept loop serves that listener.
   */
  datatype Tunnel = Tunnel(port: nat, owner: nat, localAddr: string, name: string, timeout: int,
                           held: int, activeConns: int, listening: bool)

  /** A running handleClientConnection: the tunnel it looked up, and whether its channel is open. */
  datatype User<T> = User(tunnel: T, relaying: bool)

  /**
   `held` counts global permits; `starting` are the connection handlers before their session exists, `sessions` the
   others with their Tunnels maps; `bound` are the ports this server listens on, each with the tunnel whose listener it
   is, `outside` the ports of other programs.
   */
  datatype State<T> = State(held: int, starting: set<nat>, sessions: map<nat, map<nat, T>>, tunnels: map<T, Tunnel>,
                            bound: map<nat, T>, outside: set<nat>, users: map<nat, User<T>>)

  datatype Event<T> =
    | Connect(cid: nat)                                  // a control connection arrives
    | TurnAway(cid: nat)                                 // blocked address or failed handshake
    | Establish(cid: nat)                                // handshake done, session stored
    | Forward(cid: nat, addr: string, port: nat, choice: nat, able: bool, id: T)
    | Cancel(cid: nat, port: nat)
    | Info(cid: nat, port: nat, name: string, localAddr: string, timeout: int)
    | Disconnect(cid: nat)
    | Arrive(listener: T, uid: nat)                      // a user connects to the listener of a tunnel
    | OpenChannel(uid: nat, accepted: bool)                // the handler checks LocalAddr and opens its channel
    | Finish(uid: nat)                                   // both copy loops have ended
    | Others(ports: set<nat>)                            // other programs now hold these ports

  datatype Reply = Quiet | No | Yes | Port(port: nat)

  const MAX_TCP_PORT := 65535

  function Initial<T>(): State<T> {
    State(0, {}, map[], map[], map[], {}, map[])
  }

  /** Which events can happen at all; connection and user ids are never reused while alive, nor tunnel objects ever. */
  ghost predicate Enabled<T>(s: State<T>, e: Event<T>) {
    match e
    case Connect(cid) => cid !in s.starting && cid !in s.sessions
    case TurnAway(cid) => cid in s.starting
    case Establish(cid) => cid in s.starting
    case Forward(cid, _, _, _, _, id) => cid in s.sessions && id !in s.tunnels
    case Cancel(cid, _) => cid in s.sessions
    case Info(cid, _, _, _, _) => cid in s.sessions
    case Disconnect(cid) => cid in s.sessions
    case Arrive(id, uid) => id in s.tunnels && s.tunnels[id].listening && uid !in s.users
    case OpenChannel(uid, _) => uid in s.users && !s.users[uid].relaying
    case Finish(uid) => uid in s.users && s.users[uid].relaying
    case Others(ports) => ports !! s.bound.Keys
  }

  /** Every reference leads to a tunnel object. */
  ghost predicate Closed<T>(s: State<T>) {
    && (forall cid, p :: cid in s.sessions && p in s.sessions[cid] ==> s.sessions[cid][p] in s.tunnels)
    && (forall p :: p in s.bound ==> s.bound[p] in s.tunnels)
    && (forall u :: u in s.users ==> s.users[u].tunnel in s.tunnels)
  }

  // ---------- the parts of a step ----------

  /** net.Listen: the port it binds, if it can; port 0 lets the operating system choose. */
  ghost function Listen<T>(s: State<T>, port: nat, choice: nat, able: bool): (p: Option<nat>)
    ensures p.Some? ==>
      && p.value !in s.bound && p.value !in s.outside && 0 < p.value <= MAX_TCP_PORT
      && (port != 0 ==> p.value == port)
  {
    var p := if port == 0 then choice else port;
    if able && 0 < p <= MAX_TCP_PORT && p !in s.bound && p !in s.outside then Some(p) else None
  }

  /** Listener.Close on each of these tunnels; closing twice changes nothing. */
  ghost function CloseAll<T>(s: State<T>, ts: set<T>): State<T> {
    s.(bound := map p | p in s.bound && s.bound[p] !in ts :: s.bound[p],
       tunnels := map t | t in s.tunnels :: if t in ts then s.tunnels[t].(listening := false) else s.tunnels[t])
  }

  /** The port that handleForwardRequest binds, if it passes every check on the way. */
  ghost function Grant<T>(lim: Limits, s: State<T>, cid: nat, port: nat, choice: nat, able: bool): Option<nat>
    requires cid in s.sessions
  {
    if port != 0 && !lim.IsValidPort(port) then None
    else if |s.sessions[cid]| >= lim.maxTunnels then None
    else Listen(s, port, choice, able)
  }

  /** The session gains the tunnel `id`, which listens on p. */
  ghost function AddTunnel<T>(s: State<T>, cid: nat, addr: string, p: nat, id: T): State<T>
    requires cid in s.sessions
  {
    var mine: map<nat, T>, bound: map<nat, T> := s.sessions[cid][p := id], s.bound[p := id];
    s.(sessions := s.sessions[cid := mine],
       tunnels := s.tunnels[id := Tunnel(p, cid, addr, "", 0, 0, 0, true)],
       bound := bound)
  }

  /** handleForwardRequest */
  ghost function DoForward<T>(lim: Limits, s: State<T>, cid: nat, addr: string, port: nat, choice: nat, able: bool,
                              id: T)
    : (State<T>, Reply)
    requires cid in s.sessions
  {
    match Grant(lim, s, cid, port, choice, able)
    case None => (s, No)
    case Some(p) => (AddTunnel(s, cid, addr, p, id), Port(p))
  }

  /** handleCancelForwardRequest */
  ghost function DoCancel<T>(s: State<T>, cid: nat, port: nat): (State<T>, Reply)
    requires cid in s.sessions
  {
    if port !in s.sessions[cid] then (s, No)
    else
      var s' := CloseAll(s, {s.sessions[cid][port]});
      var mine: map<nat, T> := s.sessions[cid] - {port};
      (s'.(sessions := s.sessions[cid := mine]), Yes)
  }

  /** handleTunnelInfoRequest, with the address already formatted and the timeout as it was sent */
  ghost function DoInfo<T>(s: State<T>, cid: nat, port: nat, name: string, localAddr: string, timeout: int)
    : (State<T>, Reply)
    requires Closed(s) && cid in s.sessions
  {
    if port !in s.sessions[cid] then (s, Yes)
    else
      var t := s.sessions[cid][port];
      (s.(tunnels := s.tunnels[t := s.tunnels[t].(name := name, localAddr := localAddr, timeout := timeout)]), Yes)
  }

  /** The end of handleConnection: the cleanup loop, the deletion of the session, the deferred Release. */
  ghost function DoDisconnect<T>(s: State<T>, cid: nat): (State<T>, Reply)
    requires cid in s.sessions
  {
    (CloseAll(s, s.sessions[cid].Values).(sessions := s.sessions - {cid}, held := s.held - 1), Quiet)
  }

  /** One round of acceptClientConnections, up to and including the lookup of the handler it starts. */
  ghost function DoArrive<T>(lim: Limits, s: State<T>, listener: T, uid: nat): (State<T>, Reply)
    requires Closed(s) && listener in s.tunnels
  {
    var port, cid := s.tunnels[listener].port, s.tunnels[listener].owner;
    if cid !in s.sessions || port !in s.sessions[cid] then (s, No)
    else
      var t := s.sessions[cid][port];
      var r := s.tunnels[t];
      if r.held >= lim.maxConnsPerTunnel then (s, No)
      else (s.(tunnels := s.tunnels[t := r.(held := r.held + 1, activeConns := r.activeConns + 1)],
               users := s.users[uid := User(t, false)]), Yes)
  }

  /** The deferred release of handleClientConnection. */
  ghost function DoFinish<T>(s: State<T>, uid: nat): (State<T>, Reply)
    requires Closed(s) && uid in s.users
  {
    var t := s.users[uid].tunnel;
    var r := s.tunnels[t];
    (s.(tunnels := s.tunnels[t := r.(held := r.held - 1, activeConns := r.activeConns - 1)],
        users := s.users - {uid}), Quiet)
  }

  /** handleClientConnection up to its relay loops: a tunnel without address, or a refused channel, ends it at once. */
  ghost function DoOpen<T>(s: State<T>, uid: nat, accepted: bool): (State<T>, Reply)
    requires Closed(s) && uid in s.users
  {
    if s.tunnels[s.users[uid].tunnel].localAddr == "" || !accepted then (DoFinish(s, uid).0, No)
    else (s.(users := s.users[uid := s.users[uid].(relaying := true)]), Yes)
  }

  ghost function Step<T>(lim: Limits, s: State<T>, e: Event<T>): (State<T>, Reply) {
    if !Closed(s) || !Enabled(s, e) then (s, Quiet)
    else match e
      case Connect(cid) =>
        if s.held >= lim.maxConnections then (s, No) else (s.(held := s.held + 1, starting := s.starting + {cid}), Yes)
      case TurnAway(cid) => (s.(held := s.held - 1, starting := s.starting - {cid}), Quiet)
      case Establish(cid) => (s.(starting := s.starting - {cid}, sessions := s.sessions[cid := map[]]), Quiet)
      case Forward(cid, addr, port, choice, able, id) => DoForward(lim, s, cid, addr, port, choice, able, id)
      case Cancel(cid, port) => DoCancel(s, cid, port)
      case Info(cid, port, name, localAddr, timeout) => DoInfo(s, cid, port, name, localAddr, timeout)
      case Disconnect(cid) => DoDisconnect(s, cid)
      case Arrive(t, uid) => DoArrive(lim, s, t, uid)
      case OpenChannel(uid, accepted) => DoOpen(s, uid, accepted)
      case Finish(uid) => DoFinish(s, uid)
      case Others(ports) => (s.(outside := ports), Quiet)
  }

  // ---------- the invariant ----------

  /** The tunnel's listener has the port, and it is the tunnel that its session's map holds under that port. */
  ghost predicate Placed<T>(s: State<T>, t: T)
    requires t in s.tunnels
  {
    var r := s.tunnels[t];
    && r.port in s.bound && s.bound[r.port] == t
    && r.owner in s.sessions && r.port in s.sessions[r.owner] && s.sessions[r.owner][r.port] == t
  }

  /** The open listeners are exactly the entries of the live sessions' maps, each on a port of its own. */
  ghost predicate Owned<T>(s: State<T>)
    requires Closed(s)
  {
    && (forall cid, p :: cid in s.sessions && p in s.sessions[cid] ==>
          var r := s.tunnels[s.sessions[cid][p]]; r.port == p && r.owner == cid && r.listening)
    && (forall t :: t in s.tunnels && s.tunnels[t].listening ==> Placed(s, t))
    && (forall p :: p in s.bound ==> s.tunnels[s.bound[p]].listening && s.tunnels[s.bound[p]].port == p)
    && s.bound.Keys !! s.outside
  }

  /** The live handlers of a tunnel object. */
  ghost function InFlight<T>(users: map<nat, User<T>>, t: T): set<nat> {
    set u | u in users && users[u].tunnel == t
  }

  ghost predicate Fair<T>(lim: Limits, s: State<T>, t: T)
    requires t in s.tunnels
  {
    s.tunnels[t].held == s.tunnels[t].activeConns == |InFlight(s.users, t)| <= lim.maxConnsPerTunnel
  }

  ghost predicate Slots<T>(lim: Limits, s: State<T>) {
    forall t :: t in s.tunnels ==> Fair(lim, s, t)
  }

  ghost predicate Permits<T>(lim: Limits, s: State<T>) {
    && s.starting !! s.sessions.Keys
    && s.held == |s.starting| + |s.sessions| <= lim.maxConnections
    && (forall cid :: cid in s.sessions ==> |s.sessions[cid]| <= lim.maxTunnels)
  }

  ghost predicate Inv<T>(lim: Limits, s: State<T>) {
    Closed(s) && Owned(s) && Slots(lim, s) && Permits(lim, s)
  }

  lemma ClosedKept<T>(lim: Limits, s: State<T>, e: Event<T>)
    requires Closed(s)
    ensures Closed(Step(lim, s, e).0)
  {
  }

  // Port ownership.

  /** Nothing that ownership speaks of changes. */
  ghost predicate SameListeners<T>(s: State<T>, s': State<T>) {
    && s'.bound == s.bound && s'.bound.Keys !! s'.outside && s'.tunnels.Keys == s.tunnels.Keys
    && (forall cid :: cid in s.sessions ==> cid in s'.sessions && s'.sessions[cid] == s.sessions[cid])
    && (forall cid :: cid in s'.sessions && cid !in s.sessions ==> s'.sessions[cid] == map[])
    && (forall t :: t in s.tunnels ==>
          var r, r' := s.tunnels[t], s'.tunnels[t];
          r'.port == r.port && r'.owner == r.owner && r'.listening == r.listening)
  }

  lemma SameListenersOwned<T>(s: State<T>, s': State<T>)
    requires Closed(s) && Closed(s') && Owned(s) && SameListeners(s, s')
    ensures Owned(s')
  {
    forall t | t in s'.tunnels && s'.tunnels[t].listening ensures Placed(s', t) {
      assert Placed(s, t);
    }
  }

  /** Closing the listeners of some tunnels, and forgetting their map entries. */
  lemma ClosingOwned<T>(s: State<T>, ts: set<T>, s': State<T>)
    requires Closed(s) && Closed(s') && Owned(s)
    requires var c := CloseAll(s, ts); s'.tunnels == c.tunnels && s'.bound == c.bound && s'.outside == s.outside
    requires forall cid, p :: cid in s'.sessions && p in s'.sessions[cid] ==>
               && cid in s.sessions && p in s.sessions[cid] && s'.sessions[cid][p] == s.sessions[cid][p]
               && s.sessions[cid][p] !in ts
    requires forall cid, p :: cid in s.sessions && p in s.sessions[cid] && s.sessions[cid][p] !in ts ==>
               cid in s'.sessions && p in s'.sessions[cid]
    ensures Owned(s')
  {
    forall t | t in s'.tunnels && s'.tunnels[t].listening ensures Placed(s', t) {
      assert Placed(s, t);
    }
  }

  lemma ForwardOwned<T>(lim: Limits, s: State<T>, cid: nat, addr: string, port: nat, choice: nat, able: bool, id: T)
    requires Closed(s) && Owned(s) && cid in s.sessions && id !in s.tunnels
    ensures var s' := DoForward(lim, s, cid, addr, port, choice, able, id).0; Closed(s') && Owned(s')
  {
    var (s', reply) := DoForward(lim, s, cid, addr, port, choice, able, id);
    if reply.Port? {
      assert Placed(s', id);
      forall t | t in s'.tunnels && s'.tunnels[t].listening ensures Placed(s', t) {
        if t != id {
          assert Placed(s, t);
        }
      }
    }
  }

  lemma CancelOwned<T>(s: State<T>, cid: nat, port: nat)
    requires Closed(s) && Owned(s) && cid in s.sessions && Closed(DoCancel(s, cid, port).0)
    ensures Owned(DoCancel(s, cid, port).0)
  {
    if port in s.sessions[cid] {
      ClosingOwned(s, {s.sessions[cid][port]}, DoCancel(s, cid, port).0);
    }
  }

  lemma DisconnectOwned<T>(s: State<T>, cid: nat)
    requires Closed(s) && Owned(s) && cid in s.sessions && Closed(DoDisconnect(s, cid).0)
    ensures Owned(DoDisconnect(s, cid).0)
  {
    ClosingOwned(s, s.sessions[cid].Values, DoDisconnect(s, cid).0);
  }

  lemma UsersKeepListeners<T>(lim: Limits, s: State<T>, e: Event<T>)
    requires Closed(s) && s.bound.Keys !! s.outside && (e.Arrive? || e.OpenChannel? || e.Finish?)
    ensures SameListeners(s, Step(lim, s, e).0)
  {
  }

  lemma OtherStepsKeepListeners<T>(lim: Limits, s: State<T>, e: Event<T>)
    requires Closed(s) && s.bound.Keys !! s.outside && s.starting !! s.sessions.Keys
    requires !e.Forward? && !e.Cancel? && !e.Disconnect?
    ensures SameListeners(s, Step(lim, s, e).0)
  {
    var s' := Step(lim, s, e).0;
    if Enabled(s, e) {
      match e
      case Connect(cid) =>
      case TurnAway(cid) =>
      case Establish(cid) =>
      case Info(cid, port, name, localAddr, timeout) => assert SameListeners(s, s');
      case Arrive(t, uid) => UsersKeepListeners(lim, s, e);
      case OpenChannel(uid, _) => UsersKeepListeners(lim, s, e);
      case Finish(uid) => UsersKeepListeners(lim, s, e);
      case Others(ports) =>
    }
  }

  lemma OwnedKept<T>(lim: Limits, s: State<T>, e: Event<T>)
    requires Closed(s) && Owned(s) && Permits(lim, s) && Closed(Step(lim, s, e).0)
    ensures Owned(Step(lim, s, e).0)
  {
    if Enabled(s, e) {
      match e
      case Forward(cid, addr, port, choice, able, id) => ForwardOwned(lim, s, cid, addr, port, choice, able, id);
      case Cancel(cid, port) => CancelOwned(s, cid, port);
      case Disconnect(cid) => DisconnectOwned(s, cid);
      case _ =>
        OtherStepsKeepListeners(lim, s, e);
        SameListenersOwned(s, Step(lim, s, e).0);
    }
  }

  // Slots.

  lemma OneMoreUser<T>(users: map<nat, User<T>>, uid: nat, user: User<T>, t: T)
    requires uid !in users
    ensures |InFlight(users[uid := user], t)| == |InFlight(users, t)| + if user.tunnel == t then 1 else 0
  {
    assert InFlight(users[uid := user], t) == InFlight(users, t) + if user.tunnel == t then {uid} else {};
  }

  lemma OneUserLess<T>(users: map<nat, User<T>>, uid: nat, t: T)
    requires uid in users
    ensures |InFlight(users - {uid}, t)| == |InFlight(users, t)| - if users[uid].tunnel == t then 1 else 0
  {
    assert InFlight(users - {uid}, t) == InFlight(users, t) - {uid};
  }

  lemma ArriveKeepsSlots<T>(lim: Limits, s: State<T>, listener: T, uid: nat)
    requires Closed(s) && Slots(lim, s) && listener in s.tunnels && uid !in s.users
    ensures Slots(lim, DoArrive(lim, s, listener, uid).0)
  {
    var (s', reply) := DoArrive(lim, s, listener, uid);
    forall t | t in s'.tunnels ensures Fair(lim, s', t) {
      assert Fair(lim, s, t);
      if reply == Yes {
        OneMoreUser(s.users, uid, s'.users[uid], t);
      }
    }
  }

  lemma FinishKeepsSlots<T>(lim: Limits, s: State<T>, uid: nat)
    requires Closed(s) && Slots(lim, s) && uid in s.users
    ensures Slots(lim, DoFinish(s, uid).0)
  {
    var s' := DoFinish(s, uid).0;
    forall t | t in s'.tunnels ensures Fair(lim, s', t) {
      assert Fair(lim, s, t);
      OneUserLess(s.users, uid, t);
    }
  }

  /** Nothing that the slots of old tunnels depend on changes, and new tunnels have none taken. */
  ghost predicate SameSlots<T>(s: State<T>, s': State<T>) {
    && s'.users.Keys == s.users.Keys
    && (forall u :: u in s.users ==> s'.users[u].tunnel == s.users[u].tunnel)
    && (forall t :: t in s'.tunnels ==>
          var r' := s'.tunnels[t];
          if t in s.tunnels then r'.held == s.tunnels[t].held && r'.activeConns == s.tunnels[t].activeConns
          else r'.held == r'.activeConns == 0)
  }

  lemma OtherStepsKeepSlots<T>(lim: Limits, s: State<T>, e: Event<T>)
    requires Closed(s) && !e.Arrive? && !e.Finish?
    requires e.OpenChannel? && Enabled(s, e) ==> Step(lim, s, e).1 == Yes
    ensures SameSlots(s, Step(lim, s, e).0)
  {
  }

  lemma SameSlotsFair<T>(lim: Limits, s: State<T>, s': State<T>)
    requires Closed(s) && Slots(lim, s) && SameSlots(s, s')
    ensures Slots(lim, s')
  {
    forall t | t in s'.tunnels ensures Fair(lim, s', t) {
      assert InFlight(s'.users, t) == InFlight(s.users, t);
      assert t in s.tunnels ==> Fair(lim, s, t);
    }
  }

  lemma SlotsKept<T>(lim: Limits, s: State<T>, e: Event<T>)
    requires Closed(s) && Slots(lim, s)
    ensures Slots(lim, Step(lim, s, e).0)
  {
    if e.Arrive? && Enabled(s, e) {
      ArriveKeepsSlots(lim, s, e.listener, e.uid);
    } else if (e.Finish? || (e.OpenChannel? && Step(lim, s, e).1 == No)) && Enabled(s, e) {
      FinishKeepsSlots(lim, s, e.uid);
    } else if Enabled(s, e) {
      OtherStepsKeepSlots(lim, s, e);
      SameSlotsFair(lim, s, Step(lim, s, e).0);
    }
  }

  // Permits.

  /** Only the map of one session changes, and stays within the limit. */
  lemma OneMapKeepsPermits<T>(lim: Limits, s: State<T>, s': State<T>, cid: nat)
    requires Permits(lim, s) && cid in s.sessions && s'.held == s.held && s'.starting == s.starting
    requires cid in s'.sessions && s'.sessions == s.sessions[cid := s'.sessions[cid]]
    requires |s'.sessions[cid]| <= lim.maxTunnels
    ensures Permits(lim, s')
  {
    assert s'.sessions.Keys == s.sessions.Keys;
    assert |s'.sessions| == |s'.sessions.Keys| == |s.sessions|;
  }

  lemma ForwardKeepsPermits<T>(lim: Limits, s: State<T>, cid: nat, addr: string, port: nat, choice: nat, able: bool,
                               id: T)
    requires Permits(lim, s) && cid in s.sessions
    ensures Permits(lim, DoForward(lim, s, cid, addr, port, choice, able, id).0)
  {
    if Grant(lim, s, cid, port, choice, able).Some? {
      OneMapKeepsPermits(lim, s, DoForward(lim, s, cid, addr, port, choice, able, id).0, cid);
    }
  }

  lemma CancelKeepsPermits<T>(lim: Limits, s: State<T>, cid: nat, port: nat)
    requires Permits(lim, s) && cid in s.sessions
    ensures Permits(lim, DoCancel(s, cid, port).0)
  {
    if port in s.sessions[cid] {
      assert |s.sessions[cid] - {port}| <= |s.sessions[cid]| by {
        assert (s.sessions[cid] - {port}).Keys == s.sessions[cid].Keys - {port};
      }
      OneMapKeepsPermits(lim, s, DoCancel(s, cid, port).0, cid);
    }
  }

  /** The end of a session gives back one permit and forgets one map. */
  lemma DisconnectKeepsPermits<T>(lim: Limits, s: State<T>, cid: nat)
    requires Permits(lim, s) && cid in s.sessions
    ensures Permits(lim, DoDisconnect(s, cid).0)
  {
    assert DoDisconnect(s, cid).0.sessions.Keys == s.sessions.Keys - {cid};
  }

  lemma EstablishKeepsPermits<T>(lim: Limits, s: State<T>, cid: nat)
    requires Closed(s) && Permits(lim, s)
    ensures Permits(lim, Step(lim, s, Establish(cid)).0)
  {
  }

  lemma ConnectKeepsPermits<T>(lim: Limits, s: State<T>, cid: nat)
    requires Closed(s) && Permits(lim, s)
    ensures Permits(lim, Step(lim, s, Connect(cid)).0)
  {
  }

  lemma TurnAwayKeepsPermits<T>(lim: Limits, s: State<T>, cid: nat)
    requires Closed(s) && Permits(lim, s)
    ensures Permits(lim, Step(lim, s, TurnAway(cid)).0)
  {
  }

  /** The events of users, tunnel info and other programs. */
  ghost predicate Light<T>(e: Event<T>) {
    e.Info? || e.Arrive? || e.OpenChannel? || e.Finish? || e.Others?
  }

  lemma LightSteps<T>(lim: Limits, s: State<T>, e: Event<T>)
    requires Closed(s) && Light(e)
    ensures var s' := Step(lim, s, e).0;
      s'.held == s.held && s'.starting == s.starting && s'.sessions == s.sessions
  {
  }

  lemma LightKeepsPermits<T>(lim: Limits, s: State<T>, e: Event<T>)
    requires Closed(s) && Permits(lim, s) && Light(e)
    ensures Permits(lim, Step(lim, s, e).0)
  {
    LightSteps(lim, s, e);
  }

  lemma PermitsKept<T>(lim: Limits, s: State<T>, e: Event<T>)
    requires Closed(s) && Permits(lim, s)
    ensures Permits(lim, Step(lim, s, e).0)
  {
    if Enabled(s, e) {
      match e
      case Forward(cid, addr, port, choice, able, id) =>
        ForwardKeepsPermits(lim, s, cid, addr, port, choice, able, id);
      case Cancel(cid, port) => CancelKeepsPermits(lim, s, cid, port);
      case Disconnect(cid) => DisconnectKeepsPermits(lim, s, cid);
      case Establish(cid) => EstablishKeepsPermits(lim, s, cid);
      case Connect(cid) => ConnectKeepsPermits(lim, s, cid);
      case TurnAway(cid) => TurnAwayKeepsPermits(lim, s, cid);
      case _ => LightKeepsPermits(lim, s, e);
    }
  }

  lemma InvKept<T>(lim: Limits, s: State<T>, e: Event<T>)
    requires Inv(lim, s)
    ensures Inv(lim, Step(lim, s, e).0)
  {
    ClosedKept(lim, s, e);
    OwnedKept(lim, s, e);
    SlotsKept(lim, s, e);
    PermitsKept(lim, s, e);
  }
}
