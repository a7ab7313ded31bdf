/**
 The server's side of a reload: what the events of pkg/server/server.go do to the ports of one session and to what the
 server was told of them, while nobody else holds a port that the session's client is configured for.
 */
module ReloadSession {
  import opened SessionsSpec
  import SessionsLaws
  import opened ReloadSpec
  import opened ReloadClient

  /** The ports of the session, and what the server was told of their tunnels. */
  ghost function Mine<T>(s: State<T>, cid: nat): map<nat, Told>
    requires Closed(s) && cid in s.sessions
  {
    map p | p in s.sessions[cid] ::
      var r := s.tunnels[s.sessions[cid][p]]; Told(r.name, r.localAddr, r.timeout)
  }

  /** The event is neither a request nor the end of this session. */
  ghost predicate Foreign<T>(e: Event<T>, cid: nat) {
    match e
    case Forward(c, _, _, _, _, _) => c != cid
    case Cancel(c, _) => c != cid
    case Info(c, _, _, _, _) => c != cid
    case Disconnect(c) => c != cid
    case _ => true
  }

  /** No other program and no other session holds any of these ports. */
  ghost predicate Unclaimed<T>(s: State<T>, cid: nat, want: map<string, TunnelConfig>) {
    forall n :: n in want ==>
      want[n].remotePort !in s.outside
      && forall c :: c in s.sessions && c != cid ==> want[n].remotePort !in s.sessions[c]
  }

  /** The server is sound, the session lives, and nobody else holds a configured port. */
  ghost predicate Sound<T>(lim: Limits, cid: nat, want: map<string, TunnelConfig>, s: State<T>) {
    Inv(lim, s) && cid in s.sessions && Unclaimed(s, cid, want)
  }

  // ---------- events of others ----------

  /** The session, its ports and what was told of them are as they were. */
  ghost predicate Spares<T>(s: State<T>, s': State<T>, cid: nat)
    requires Closed(s) && cid in s.sessions
  {
    Closed(s') && cid in s'.sessions && Mine(s', cid) == Mine(s, cid)
  }

  lemma ForeignInfoSpares<T>(lim: Limits, s: State<T>, e: Event<T>, cid: nat)
    requires Closed(s) && Owned(s) && cid in s.sessions && Foreign(e, cid) && e.Info? && Enabled(s, e)
    ensures Spares(s, DoInfo(s, e.cid, e.port, e.name, e.localAddr, e.timeout).0, cid)
  {
    if e.port in s.sessions[e.cid] {
      assert s.tunnels[s.sessions[e.cid][e.port]].owner == e.cid;
    }
  }

  /** The maps are as they were, and what was told of every tunnel too. */
  ghost predicate SameTellings<T>(s: State<T>, s': State<T>) {
    && s'.sessions == s.sessions
    && forall t :: t in s.tunnels ==>
         var r := s.tunnels[t];
         t in s'.tunnels && s'.tunnels[t] == r.(held := s'.tunnels[t].held, activeConns := s'.tunnels[t].activeConns)
  }

  lemma TellingsSpare<T>(s: State<T>, s': State<T>, cid: nat)
    requires Closed(s) && Closed(s') && cid in s.sessions && SameTellings(s, s')
    ensures Spares(s, s', cid)
  {
  }

  lemma UsersTellNothing<T>(lim: Limits, s: State<T>, e: Event<T>)
    requires Closed(s) && (e.Arrive? || e.OpenChannel? || e.Finish?)
    ensures SameTellings(s, Step(lim, s, e).0)
  {
  }

  lemma UsersSpare<T>(lim: Limits, s: State<T>, e: Event<T>, cid: nat)
    requires Closed(s) && cid in s.sessions && (e.Arrive? || e.OpenChannel? || e.Finish?)
    ensures Spares(s, Step(lim, s, e).0, cid)
  {
    ClosedKept(lim, s, e);
    UsersTellNothing(lim, s, e);
    TellingsSpare(s, Step(lim, s, e).0, cid);
  }

  lemma ForeignForwardSpares<T>(lim: Limits, s: State<T>, e: Event<T>, cid: nat)
    requires Closed(s) && cid in s.sessions && Foreign(e, cid) && e.Forward?
    ensures Spares(s, Step(lim, s, e).0, cid)
  {
  }

  lemma ForeignCloseSpares<T>(lim: Limits, s: State<T>, e: Event<T>, cid: nat)
    requires Closed(s) && cid in s.sessions && Foreign(e, cid) && (e.Cancel? || e.Disconnect?)
    ensures Spares(s, Step(lim, s, e).0, cid)
  {
  }

  lemma ArrivalsSpare<T>(lim: Limits, s: State<T>, e: Event<T>, cid: nat)
    requires Closed(s) && s.starting !! s.sessions.Keys && cid in s.sessions
    requires e.Connect? || e.TurnAway? || e.Establish? || e.Others?
    ensures Spares(s, Step(lim, s, e).0, cid)
  {
  }

  lemma ForeignSpares<T>(lim: Limits, s: State<T>, e: Event<T>, cid: nat)
    requires Closed(s) && Owned(s) && s.starting !! s.sessions.Keys && cid in s.sessions && Foreign(e, cid)
    ensures Spares(s, Step(lim, s, e).0, cid)
  {
    if Enabled(s, e) {
      match e
      case Info(_, _, _, _, _) => ForeignInfoSpares(lim, s, e, cid);
      case Forward(_, _, _, _, _, _) => ForeignForwardSpares(lim, s, e, cid);
      case Cancel(_, _) => ForeignCloseSpares(lim, s, e, cid);
      case Disconnect(_) => ForeignCloseSpares(lim, s, e, cid);
      case Arrive(_, _) => UsersSpare(lim, s, e, cid);
      case OpenChannel(_, _) => UsersSpare(lim, s, e, cid);
      case Finish(_) => UsersSpare(lim, s, e, cid);
      case _ => ArrivalsSpare(lim, s, e, cid);
    }
  }

  // ---------- requests of this session ----------

  /** The other sessions and the other programs are as they were. */
  ghost predicate SameOthers<T>(s: State<T>, s': State<T>, cid: nat) {
    s'.outside == s.outside && s'.sessions - {cid} == s.sessions - {cid}
  }

  lemma UnclaimedKept<T>(s: State<T>, s': State<T>, cid: nat, want: map<string, TunnelConfig>)
    requires Unclaimed(s, cid, want) && SameOthers(s, s', cid)
    ensures Unclaimed(s', cid, want)
  {
    forall c | c in s'.sessions && c != cid ensures c in s.sessions && s'.sessions[c] == s.sessions[c] {
      assert c in s'.sessions - {cid};
    }
  }

  lemma CancelTakesThePort<T>(lim: Limits, s: State<T>, cid: nat, port: nat)
    requires Closed(s) && Owned(s) && cid in s.sessions
    ensures var s' := Step(lim, s, Event.Cancel(cid, port)).0;
      Closed(s') && cid in s'.sessions && Mine(s', cid) == Mine(s, cid) - {port} && SameOthers(s, s', cid)
  {
    SessionsLaws.CancelAt(lim, s, cid, port);
  }

  lemma SoundCancel<T>(lim: Limits, cid: nat, want: map<string, TunnelConfig>, s: State<T>, port: nat)
    requires Sound(lim, cid, want, s)
    ensures var s' := Step(lim, s, Event.Cancel(cid, port)).0;
      Sound(lim, cid, want, s') && Mine(s', cid) == Mine(s, cid) - {port}
  {
    var s' := Step(lim, s, Event.Cancel(cid, port)).0;
    InvKept(lim, s, Event.Cancel(cid, port));
    CancelTakesThePort(lim, s, cid, port);
    UnclaimedKept(s, s', cid, want);
  }

  lemma ForwardAdds<T>(s: State<T>, cid: nat, port: nat, id: T)
    requires Closed(s) && cid in s.sessions && id !in s.tunnels
    ensures var s' := AddTunnel(s, cid, "0.0.0.0", port, id);
      && Closed(s') && cid in s'.sessions && SameOthers(s, s', cid)
      && Mine(s', cid) == Mine(s, cid)[port := Told("", "0.0.0.0", 0)]
  {
  }

  lemma MineSize<T>(s: State<T>, cid: nat)
    requires Closed(s) && cid in s.sessions
    ensures |Mine(s, cid)| == |s.sessions[cid]|
  {
    assert Mine(s, cid).Keys == s.sessions[cid].Keys;
  }

  /** The request for a free port of the configuration is granted. */
  lemma ForwardIsAnswered<T>(lim: Limits, cid: nat, want: map<string, TunnelConfig>, s: State<T>, n: string, id: T)
    requires Sound(lim, cid, want, s) && n in want && GoodPort(lim, want[n].remotePort) && id !in s.tunnels
    requires want[n].remotePort !in Mine(s, cid) && |Mine(s, cid)| < lim.maxTunnels
    ensures var e := Forward(cid, "0.0.0.0", want[n].remotePort, 0, true, id);
      Step(lim, s, e) == (AddTunnel(s, cid, "0.0.0.0", want[n].remotePort, id), Port(want[n].remotePort))
  {
    MineSize(s, cid);
    SessionsLaws.GrantAt(lim, s, Forward(cid, "0.0.0.0", want[n].remotePort, 0, true, id));
  }

  lemma SoundForward<T>(lim: Limits, cid: nat, want: map<string, TunnelConfig>, s: State<T>, n: string, id: T)
    requires Sound(lim, cid, want, s) && n in want && GoodPort(lim, want[n].remotePort) && id !in s.tunnels
    requires want[n].remotePort !in Mine(s, cid) && |Mine(s, cid)| < lim.maxTunnels
    ensures var (s', reply) := Step(lim, s, Forward(cid, "0.0.0.0", want[n].remotePort, 0, true, id));
      && reply == Port(want[n].remotePort) && Sound(lim, cid, want, s')
      && Mine(s', cid) == Mine(s, cid)[want[n].remotePort := Told("", "0.0.0.0", 0)]
  {
    var port := want[n].remotePort;
    InvKept(lim, s, Forward(cid, "0.0.0.0", port, 0, true, id));
    ForwardIsAnswered(lim, cid, want, s, n, id);
    ForwardAdds(s, cid, port, id);
    UnclaimedKept(s, AddTunnel(s, cid, "0.0.0.0", port, id), cid, want);
  }

  lemma InfoTells<T>(s: State<T>, cid: nat, port: nat, t: TunnelConfig)
    requires Closed(s) && Owned(s) && cid in s.sessions && port in s.sessions[cid]
    ensures var s' := DoInfo(s, cid, port, t.name, Address(t), t.timeout).0;
      && Closed(s') && cid in s'.sessions && SameOthers(s, s', cid)
      && Mine(s', cid) == Mine(s, cid)[port := Telling(t)]
  {
    forall p | p in s.sessions[cid] && p != port ensures s.sessions[cid][p] != s.sessions[cid][port] {
      assert s.tunnels[s.sessions[cid][p]].port == p;
    }
  }

  lemma InfoStep<T>(lim: Limits, s: State<T>, cid: nat, port: nat, t: TunnelConfig)
    requires Closed(s) && Owned(s) && cid in s.sessions && port in Mine(s, cid)
    ensures var s' := Step(lim, s, Info(cid, port, t.name, Address(t), t.timeout)).0;
      && Closed(s') && cid in s'.sessions && SameOthers(s, s', cid)
      && Mine(s', cid) == Mine(s, cid)[port := Telling(t)]
  {
    InfoTells(s, cid, port, t);
  }

  lemma SoundInfo<T>(lim: Limits, cid: nat, want: map<string, TunnelConfig>, s: State<T>, port: nat, t: TunnelConfig)
    requires Sound(lim, cid, want, s) && port in Mine(s, cid)
    ensures var s' := Step(lim, s, Info(cid, port, t.name, Address(t), t.timeout)).0;
      Sound(lim, cid, want, s') && Mine(s', cid) == Mine(s, cid)[port := Telling(t)]
  {
    var e := Info(cid, port, t.name, Address(t), t.timeout);
    InvKept(lim, s, e);
    InfoStep(lim, s, cid, port, t);
    UnclaimedKept(s, Step(lim, s, e).0, cid, want);
  }
}
