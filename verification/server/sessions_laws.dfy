/** What every run of the connection side keeps: port ownership, limits, and the conservation of permits. */
module SessionsLaws {
  import opened Basics
  import opened Options
  import opened SessionsSpec

  /** The state after these events, from a server that has just started. */
  ghost function Run<T>(lim: Limits, evs: seq<Event<T>>): State<T> {
    if |evs| == 0 then Initial() else Step(lim, Run(lim, evs[..|evs| - 1]), evs[|evs| - 1]).0
  }

  lemma {:induction false} RunKeepsInv<T>(lim: Limits, evs: seq<Event<T>>)
    ensures Inv(lim, Run(lim, evs))
  {
    if |evs| > 0 {
      RunKeepsInv(lim, evs[..|evs| - 1]);
      InvKept(lim, Run(lim, evs[..|evs| - 1]), evs[|evs| - 1]);
    }
  }

  ghost function ReplyAt<T>(lim: Limits, evs: seq<Event<T>>, i: nat): Reply
    requires i < |evs|
  {
    Step(lim, Run(lim, evs[..i]), evs[i]).1
  }

  // ---------- ports ----------

  ghost function PortsOf<T>(maps: map<nat, map<nat, T>>, cids: set<nat>): set<nat> {
    set cid, p | cid in cids && cid in maps && p in maps[cid] :: p
  }

  /** One map more has at most its own ports more. */
  lemma PortsOfOneMore<T>(maps: map<nat, map<nat, T>>, cids: set<nat>, cid: nat, k: nat)
    requires cid in cids && forall c :: c in maps ==> |maps[c]| <= k
    ensures |PortsOf(maps, cids)| <= |PortsOf(maps, cids - {cid})| + k
  {
    var mine := if cid in maps then maps[cid].Keys else {};
    UnionBound(PortsOf(maps, cids - {cid}), mine);
    assert PortsOf(maps, cids) == PortsOf(maps, cids - {cid}) + mine;
  }

  /** n maps of at most k ports each have at most n * k ports between them. */
  lemma {:induction false} PortsOfBound<T>(maps: map<nat, map<nat, T>>, cids: set<nat>, n: nat, k: nat)
    requires |cids| == n && forall cid :: cid in maps ==> |maps[cid]| <= k
    ensures |PortsOf(maps, cids)| <= n * k
    decreases n
  {
    if n == 0 {
      assert PortsOf(maps, cids) == {};
    } else {
      var cid :| cid in cids;
      PortsOfBound(maps, cids - {cid}, n - 1, k);
      PortsOfOneMore(maps, cids, cid, k);
      Distribute(n - 1, k);
    }
  }

  /** A port is bound exactly when a live session's map has it. */
  lemma BoundIsHeld<T>(s: State<T>, p: nat)
    requires Closed(s) && Owned(s)
    ensures p in s.bound <==> exists c :: c in s.sessions && p in s.sessions[c]
  {
    if p in s.bound {
      assert Placed(s, s.bound[p]);
    }
    if c :| c in s.sessions && p in s.sessions[c] {
      assert Placed(s, s.sessions[c][p]);
    }
  }

  /** No two live sessions hold the same port. */
  lemma PortsAreDisjoint<T>(s: State<T>, c: nat, d: nat, p: nat)
    requires Closed(s) && Owned(s)
    requires c in s.sessions && d in s.sessions && p in s.sessions[c] && p in s.sessions[d]
    ensures c == d
  {
    assert Placed(s, s.sessions[c][p]) && Placed(s, s.sessions[d][p]);
  }

  /**
   Port ownership: in every reachable state the listening ports are the disjoint union of the live sessions' maps; every
   open listener is the one its session's map holds under its port; the limits hold, and so their product for the total.
   */
  lemma PortOwnership<T>(lim: Limits, evs: seq<Event<T>>)
    ensures var s := Run(lim, evs);
      && s.bound.Keys == PortsOf(s.sessions, s.sessions.Keys)
      && (forall c, d, p :: c in s.sessions && d in s.sessions && p in s.sessions[c] && p in s.sessions[d] ==> c == d)
      && (forall t :: t in s.tunnels ==>
            (s.tunnels[t].listening <==> exists c, p :: c in s.sessions && p in s.sessions[c] && s.sessions[c][p] == t))
      && (forall c :: c in s.sessions ==> |s.sessions[c]| <= lim.maxTunnels)
      && |s.bound| <= lim.maxConnections * lim.maxTunnels
  {
    var s := Run(lim, evs);
    RunKeepsInv(lim, evs);
    forall c, d, p | c in s.sessions && d in s.sessions && p in s.sessions[c] && p in s.sessions[d] ensures c == d {
      PortsAreDisjoint(s, c, d, p);
    }
    forall t | t in s.tunnels && s.tunnels[t].listening
      ensures exists c, p :: c in s.sessions && p in s.sessions[c] && s.sessions[c][p] == t
    {
      assert Placed(s, t);
    }
    BoundIsUnion(s);
    BoundIsLimited(lim, s);
  }

  lemma BoundIsUnion<T>(s: State<T>)
    requires Closed(s) && Owned(s)
    ensures s.bound.Keys == PortsOf(s.sessions, s.sessions.Keys)
  {
    forall p ensures p in s.bound <==> p in PortsOf(s.sessions, s.sessions.Keys) {
      BoundIsHeld(s, p);
    }
  }

  lemma BoundIsLimited<T>(lim: Limits, s: State<T>)
    requires Permits(lim, s) && s.bound.Keys == PortsOf(s.sessions, s.sessions.Keys)
    ensures |s.bound| <= lim.maxConnections * lim.maxTunnels
  {
    PortsOfBound(s.sessions, s.sessions.Keys, |s.sessions.Keys|, lim.maxTunnels);
    MulOrder(|s.sessions.Keys|, lim.maxConnections, lim.maxTunnels);
  }

  // ---------- requests and disconnects ----------

  /**
   A request for a port is granted exactly when the port lies in the range, the session is below its limit, the bind can
   work and nobody holds the port, neither another program nor any live session.
   */
  ghost predicate GrantIsExact<T>(lim: Limits, s: State<T>, e: Event<T>)
    requires e.Forward? && Enabled(s, e)
  {
    Step(lim, s, e).1 == Port(e.port) <==>
      && lim.minPort <= e.port <= lim.maxPort && e.port <= 65535 && e.able
      && |s.sessions[e.cid]| < lim.maxTunnels
      && e.port !in s.outside && !(exists c :: c in s.sessions && e.port in s.sessions[c])
  }

  lemma GrantAt<T>(lim: Limits, s: State<T>, e: Event<T>)
    requires Inv(lim, s) && e.Forward? && Enabled(s, e) && e.port != 0
    ensures GrantIsExact(lim, s, e)
  {
    BoundIsHeld(s, e.port);
  }

  /** In every reachable state a named port is granted exactly when it may be and nobody holds it. */
  lemma ForwardIsGranted<T>(lim: Limits, evs: seq<Event<T>>, e: Event<T>)
    requires e.Forward? && Enabled(Run(lim, evs), e) && e.port != 0
    ensures GrantIsExact(lim, Run(lim, evs), e)
  {
    RunKeepsInv(lim, evs);
    GrantAt(lim, Run(lim, evs), e);
  }

  /**
   A grant is a port that no live session holds; it is one new entry of this session's map, and every other entry of
   every session stays as it was. A refusal changes nothing.
   */
  ghost predicate GrantIsExclusive<T>(lim: Limits, s: State<T>, e: Event<T>)
    requires e.Forward? && Enabled(s, e)
  {
    var (s', reply) := Step(lim, s, e);
    if reply.Port? then
      && !(exists c :: c in s.sessions && reply.port in s.sessions[c])
      && s'.sessions.Keys == s.sessions.Keys && s'.sessions - {e.cid} == s.sessions - {e.cid}
      && s'.sessions[e.cid] == s.sessions[e.cid][reply.port := e.id]
      && s'.tunnels - {e.id} == s.tunnels
      && e.id in s'.tunnels && s'.tunnels[e.id] == Tunnel(reply.port, e.cid, e.addr, "", 0, 0, 0, true)
    else reply == No && s' == s
  }

  lemma TunnelIsAdded<T>(s: State<T>, cid: nat, addr: string, p: nat, id: T)
    requires cid in s.sessions && id !in s.tunnels
    ensures var s' := AddTunnel(s, cid, addr, p, id);
      && s'.sessions.Keys == s.sessions.Keys && s'.sessions - {cid} == s.sessions - {cid}
      && s'.sessions[cid] == s.sessions[cid][p := id] && s'.tunnels - {id} == s.tunnels
  {
  }

  lemma ExclusiveAt<T>(lim: Limits, s: State<T>, e: Event<T>)
    requires Closed(s) && Owned(s) && e.Forward? && Enabled(s, e)
    ensures GrantIsExclusive(lim, s, e)
  {
    var p := Grant(lim, s, e.cid, e.port, e.choice, e.able);
    if p.Some? {
      BoundIsHeld(s, p.value);
      TunnelIsAdded(s, e.cid, e.addr, p.value, e.id);
    }
  }

  /** In every reachable state a grant never overwrites a live entry of any session. */
  lemma ForwardIsExclusive<T>(lim: Limits, evs: seq<Event<T>>, e: Event<T>)
    requires e.Forward? && Enabled(Run(lim, evs), e)
    ensures GrantIsExclusive(lim, Run(lim, evs), e)
  {
    RunKeepsInv(lim, evs);
    ExclusiveAt(lim, Run(lim, evs), e);
  }

  /** A disconnect frees exactly its session's ports; the other sessions keep their maps and their open listeners. */
  ghost predicate DisconnectIsExact<T>(lim: Limits, s: State<T>, cid: nat)
    requires cid in s.sessions
  {
    var s' := Step(lim, s, Disconnect(cid)).0;
    && s'.bound == s.bound - s.sessions[cid].Keys
    && s.sessions[cid].Keys <= s.bound.Keys
    && s'.sessions == s.sessions - {cid} && s'.starting == s.starting && s'.held == s.held - 1
    && (forall t :: t in s.tunnels && s.tunnels[t].owner != cid ==> t in s'.tunnels && s'.tunnels[t] == s.tunnels[t])
    && s'.users == s.users
  }

  lemma DisconnectAt<T>(lim: Limits, s: State<T>, cid: nat)
    requires Closed(s) && Owned(s) && cid in s.sessions
    ensures DisconnectIsExact(lim, s, cid)
  {
    ListeningPortsOfSession(s, cid);
  }

  lemma ListeningPortsOfSession<T>(s: State<T>, cid: nat)
    requires Closed(s) && Owned(s) && cid in s.sessions
    ensures s.sessions[cid].Keys <= s.bound.Keys
    ensures forall p :: p in s.bound ==> (s.bound[p] in s.sessions[cid].Values <==> p in s.sessions[cid])
    ensures forall t :: t in s.sessions[cid].Values ==> s.tunnels[t].owner == cid
  {
    forall p | p in s.sessions[cid] ensures p in s.bound && s.bound[p] in s.sessions[cid].Values {
      assert s.sessions[cid][p] in s.sessions[cid].Values;
      assert Placed(s, s.sessions[cid][p]);
    }
  }

  /** In every reachable state a disconnect frees exactly its session's ports. */
  lemma DisconnectFreesItsPorts<T>(lim: Limits, evs: seq<Event<T>>, cid: nat)
    requires cid in Run(lim, evs).sessions
    ensures DisconnectIsExact(lim, Run(lim, evs), cid)
  {
    RunKeepsInv(lim, evs);
    DisconnectAt(lim, Run(lim, evs), cid);
  }

  /** A cancel frees its port if the session has it, and only then says yes. */
  ghost predicate CancelIsExact<T>(lim: Limits, s: State<T>, cid: nat, port: nat)
    requires cid in s.sessions
  {
    var (s', reply) := Step(lim, s, Cancel(cid, port));
    && s'.bound == (if port in s.sessions[cid] then s.bound - {port} else s.bound)
    && cid in s'.sessions && s'.sessions - {cid} == s.sessions - {cid} && s'.sessions[cid] == s.sessions[cid] - {port}
    && (reply == Yes <==> port in s.sessions[cid]) && (reply == No <==> port !in s.sessions[cid])
  }

  lemma CancelAt<T>(lim: Limits, s: State<T>, cid: nat, port: nat)
    requires Closed(s) && Owned(s) && cid in s.sessions
    ensures CancelIsExact(lim, s, cid, port)
  {
    if port in s.sessions[cid] {
      assert Placed(s, s.sessions[cid][port]);
    }
  }

  /** The second cancel, which closing the client's listener sends, is refused and changes nothing. */
  lemma SecondCancelAt<T>(lim: Limits, s: State<T>, cid: nat, port: nat)
    requires Inv(lim, s) && cid in s.sessions
    ensures var s' := Step(lim, s, Cancel(cid, port)).0;
      cid in s'.sessions && Closed(s') && Step(lim, s', Cancel(cid, port)) == (s', No)
  {
    InvKept(lim, s, Cancel(cid, port));
    CancelAt(lim, s, cid, port);
  }

  /** In every reachable state a cancel frees exactly its port, and a repeated one is refused and changes nothing. */
  lemma CancelFreesItsPort<T>(lim: Limits, evs: seq<Event<T>>, cid: nat, port: nat)
    requires cid in Run(lim, evs).sessions
    ensures CancelIsExact(lim, Run(lim, evs), cid, port)
    ensures var s' := Step(lim, Run(lim, evs), Cancel(cid, port)).0; Step(lim, s', Cancel(cid, port)) == (s', No)
  {
    RunKeepsInv(lim, evs);
    CancelAt(lim, Run(lim, evs), cid, port);
    SecondCancelAt(lim, Run(lim, evs), cid, port);
  }

  ghost predicate Grants<T>(lim: Limits, evs: seq<Event<T>>, i: nat, cid: nat, p: nat)
    requires i < |evs|
  {
    && evs[i].Forward? && evs[i].cid == cid && ReplyAt(lim, evs, i) == Port(p)
    && (evs[i].port != 0 ==> evs[i].port == p && lim.minPort <= p <= lim.maxPort)
  }

  /** A port new in a session's map was granted by this very step. */
  lemma NewPortIsGranted<T>(lim: Limits, s: State<T>, e: Event<T>, cid: nat, p: nat)
    requires var s' := Step(lim, s, e).0; cid in s'.sessions && p in s'.sessions[cid]
    requires !(cid in s.sessions && p in s.sessions[cid])
    ensures e.Forward? && e.cid == cid && Step(lim, s, e).1 == Port(p)
    ensures e.port != 0 ==> e.port == p && lim.minPort <= p <= lim.maxPort
  {
  }

  /**
   Every port in use goes back to a forward request of the session that holds it, granted with that port; when the
   request named a port, it named this one, and it lies in the configured range.
   */
  lemma {:induction false} EveryPortWasGranted<T>(lim: Limits, evs: seq<Event<T>>, cid: nat, p: nat)
    requires cid in Run(lim, evs).sessions && p in Run(lim, evs).sessions[cid]
    ensures exists i :: 0 <= i < |evs| && Grants(lim, evs, i, cid, p)
  {
    var before := evs[..|evs| - 1];
    var s := Run(lim, before);
    if cid in s.sessions && p in s.sessions[cid] {
      EveryPortWasGranted(lim, before, cid, p);
      var i :| 0 <= i < |before| && Grants(lim, before, i, cid, p);
      assert before[..i] == evs[..i];
      assert Grants(lim, evs, i, cid, p);
    } else {
      NewPortIsGranted(lim, s, evs[|evs| - 1], cid, p);
      assert Grants(lim, evs, |evs| - 1, cid, p);
    }
  }

  /** A port that the operating system chose is not checked against the range. */
  lemma ChosenPortIsUnchecked<T>(lim: Limits, s: State<T>, cid: nat, addr: string, choice: nat, id: T)
    requires Inv(lim, s) && cid in s.sessions && id !in s.tunnels && |s.sessions[cid]| < lim.maxTunnels
    requires 0 < choice <= MAX_TCP_PORT && choice !in s.bound && choice !in s.outside
    ensures Step(lim, s, Forward(cid, addr, 0, choice, true, id)).1 == Port(choice)
  {
  }

  /** Port 0, exactly: the port the operating system offers is granted whatever the range, if nobody holds it. */
  lemma ChosenPortIsGranted<T>(lim: Limits, evs: seq<Event<T>>, e: Event<T>)
    requires e.Forward? && Enabled(Run(lim, evs), e) && e.port == 0
    ensures var s := Run(lim, evs);
      Step(lim, s, e).1 == Port(e.choice) <==>
        && 0 < e.choice <= 65535 && e.able && |s.sessions[e.cid]| < lim.maxTunnels
        && e.choice !in s.outside && !(exists c :: c in s.sessions && e.choice in s.sessions[c])
  {
    RunKeepsInv(lim, evs);
    BoundIsHeld(Run(lim, evs), e.choice);
  }

  /** Tunnel info is always answered yes; it sets the three fields of the tunnel under the port, and nothing else. */
  ghost predicate InfoIsExact<T>(lim: Limits, s: State<T>, e: Event<T>)
    requires e.Info? && Closed(s) && Enabled(s, e)
  {
    var (s', reply) := Step(lim, s, e);
    && reply == Yes
    && if e.port !in s.sessions[e.cid] then s' == s
       else
         var t := s.sessions[e.cid][e.port];
         && t in s'.tunnels && s' == s.(tunnels := s'.tunnels) && s'.tunnels - {t} == s.tunnels - {t}
         && s'.tunnels[t].name == e.name && s'.tunnels[t].localAddr == e.localAddr && s'.tunnels[t].timeout == e.timeout
  }

  lemma InfoSetsItsTunnel<T>(lim: Limits, evs: seq<Event<T>>, e: Event<T>)
    requires e.Info? && Enabled(Run(lim, evs), e)
    ensures Closed(Run(lim, evs)) && InfoIsExact(lim, Run(lim, evs), e)
  {
    RunKeepsInv(lim, evs);
    InfoAt(lim, Run(lim, evs), e);
  }

  lemma InfoAt<T>(lim: Limits, s: State<T>, e: Event<T>)
    requires e.Info? && Closed(s) && Enabled(s, e)
    ensures InfoIsExact(lim, s, e)
  {
  }

  // ---------- permits ----------

  /** A connection is let in exactly while fewer handlers and sessions live than the limit allows. */
  ghost predicate LetsInExactly<T>(lim: Limits, s: State<T>, cid: nat) {
    var (s', reply) := Step(lim, s, Connect(cid));
    if |s.starting| + |s.sessions| < lim.maxConnections then
      && reply == Yes && s'.starting == s.starting + {cid} && cid !in s.starting && s'.held == s.held + 1
      && s' == s.(starting := s'.starting, held := s'.held)
    else reply == No && s' == s
  }

  /** In every reachable state. */
  lemma ConnectionIsLetIn<T>(lim: Limits, evs: seq<Event<T>>, cid: nat)
    requires Enabled(Run(lim, evs), Connect(cid))
    ensures LetsInExactly(lim, Run(lim, evs), cid)
  {
    RunKeepsInv(lim, evs);
  }

  /** Turned away, a connection gives its one permit back, and nothing else changes. */
  ghost predicate TurnsAwayExactly<T>(lim: Limits, s: State<T>, cid: nat) {
    var s' := Step(lim, s, TurnAway(cid)).0;
    && s'.starting == s.starting - {cid} && s'.held == s.held - 1
    && s' == s.(starting := s'.starting, held := s'.held)
  }

  /** Established, it keeps its permit, and its session starts with no ports. */
  ghost predicate EstablishesExactly<T>(lim: Limits, s: State<T>, cid: nat) {
    var s' := Step(lim, s, Establish(cid)).0;
    && s'.starting == s.starting - {cid} && cid !in s.sessions && cid in s'.sessions && s'.sessions[cid] == map[]
    && s'.sessions - {cid} == s.sessions && s' == s.(starting := s'.starting, sessions := s'.sessions)
  }

  lemma EstablishAt<T>(lim: Limits, s: State<T>, cid: nat)
    requires Closed(s) && cid in s.starting && cid !in s.sessions
    ensures EstablishesExactly(lim, s, cid)
  {
  }

  lemma TurnAwayAt<T>(lim: Limits, s: State<T>, cid: nat)
    requires Closed(s) && cid in s.starting
    ensures TurnsAwayExactly(lim, s, cid)
  {
  }

  /** What becomes of a connection that was let in, in every reachable state. */
  lemma HandshakeIsExact<T>(lim: Limits, evs: seq<Event<T>>, cid: nat)
    requires cid in Run(lim, evs).starting
    ensures TurnsAwayExactly(lim, Run(lim, evs), cid) && EstablishesExactly(lim, Run(lim, evs), cid)
  {
    RunKeepsInv(lim, evs);
    TurnAwayAt(lim, Run(lim, evs), cid);
    EstablishAt(lim, Run(lim, evs), cid);
  }

  /**
   Slot conservation: in every reachable state the global permits taken are the live connection handlers, and for every
   tunnel object ever made its permits taken, its ActiveConns and its live user handlers are equal and within the limit.
   */
  lemma SlotConservation<T>(lim: Limits, evs: seq<Event<T>>)
    ensures var s := Run(lim, evs);
      && s.held == |s.starting| + |s.sessions| <= lim.maxConnections
      && s.starting !! s.sessions.Keys
      && forall t :: t in s.tunnels ==>
           s.tunnels[t].held == s.tunnels[t].activeConns == |InFlight(s.users, t)| <= lim.maxConnsPerTunnel
  {
    var s := Run(lim, evs);
    RunKeepsInv(lim, evs);
    forall t | t in s.tunnels
      ensures s.tunnels[t].held == s.tunnels[t].activeConns == |InFlight(s.users, t)| <= lim.maxConnsPerTunnel
    {
      assert Fair(lim, s, t);
    }
  }

  /** The loop's lookup finds the tunnel of its own listener, and admits exactly below the limit. */
  ghost predicate AdmitsExactly<T>(lim: Limits, s: State<T>, t: T, uid: nat) {
    var (s', reply) := Step(lim, s, Arrive(t, uid));
    if |InFlight(s.users, t)| < lim.maxConnsPerTunnel then
      reply == Yes && s'.users == s.users[uid := User(t, false)] && s'.tunnels - {t} == s.tunnels - {t}
    else reply == No && s' == s
  }

  lemma AdmissionAt<T>(lim: Limits, s: State<T>, t: T, uid: nat)
    requires Closed(s) && Owned(s) && Slots(lim, s) && Enabled(s, Arrive(t, uid))
    ensures AdmitsExactly(lim, s, t, uid)
  {
    assert Placed(s, t) && Fair(lim, s, t);
  }

  /**
   Accept loops, in every reachable state: while a listener is open, the lookup finds the very tunnel of that listener,
   and the user is admitted exactly when fewer handlers of it are live than the limit allows.
   */
  lemma AdmissionIsExact<T>(lim: Limits, evs: seq<Event<T>>, t: T, uid: nat)
    requires Enabled(Run(lim, evs), Arrive(t, uid))
    ensures AdmitsExactly(lim, Run(lim, evs), t, uid)
  {
    RunKeepsInv(lim, evs);
    AdmissionAt(lim, Run(lim, evs), t, uid);
  }

  /** A handler that leaves gives back one permit of its own tunnel, which was taken, and touches no other tunnel. */
  ghost predicate ReleasesOnce<T>(lim: Limits, s: State<T>, e: Event<T>)
    requires Closed(s) && Enabled(s, e) && (e.OpenChannel? || e.Finish?)
  {
    var s' := Step(lim, s, e).0;
    var t := s.users[e.uid].tunnel;
    var given := if e.uid in s'.users then 0 else 1;
    && s.tunnels[t].held >= 1 && s'.tunnels.Keys == s.tunnels.Keys
    && s'.tunnels[t].held == s'.tunnels[t].activeConns == s.tunnels[t].held - given
    && (forall u :: u in s.tunnels && u != t ==> s'.tunnels[u] == s.tunnels[u])
    && (e.uid in s'.users <==> e.OpenChannel? && e.accepted && s.tunnels[t].localAddr != "")
    && s'.users - {e.uid} == s.users - {e.uid}
  }

  lemma ReleaseAt<T>(lim: Limits, s: State<T>, e: Event<T>)
    requires Closed(s) && Slots(lim, s) && Enabled(s, e) && (e.OpenChannel? || e.Finish?)
    ensures ReleasesOnce(lim, s, e)
  {
    var t := s.users[e.uid].tunnel;
    assert Fair(lim, s, t);
    assert e.uid in InFlight(s.users, t);
  }

  /** Both ways out of a handler, in every reachable state, release its slot exactly once. */
  lemma ExitReleasesOnce<T>(lim: Limits, evs: seq<Event<T>>, e: Event<T>)
    requires Enabled(Run(lim, evs), e) && (e.OpenChannel? || e.Finish?)
    ensures Closed(Run(lim, evs)) && ReleasesOnce(lim, Run(lim, evs), e)
  {
    RunKeepsInv(lim, evs);
    ReleaseAt(lim, Run(lim, evs), e);
  }
}
