/**
 A reload over client and server together. The client sweeps its table, cancelling what goes or changes, and each cancel
 is answered before the next; then it starts a creation goroutine per new tunnel, and these run their requests in any
 order, while other sessions, users and programs go on doing theirs.

 One connection is assumed, without a creation still pending from an earlier reload. Nobody else takes a port that the
 new configuration names: moves that would are not made.
 */
module ReloadConverges {
  import opened Basics
  import opened Decimals
  import opened Options
  import opened SessionsSpec
  import SessionsLaws
  import opened ReloadSpec
  import opened ReloadClient
  import opened ReloadSession

  datatype System<T> = System(server: State<T>, client: Client)

  datatype Move<T> = Elsewhere(event: Event<T>) | Sweep | Create(name: string, id: T)

  /** A step of ReloadTunnels, and what its request, if it sends one, does at the server. */
  ghost function SweepMove<T>(lim: Limits, cid: nat, x: System<T>): System<T> {
    match NextCancel(x.client)
    case Some(port) => System(Step(lim, x.server, Event.Cancel(cid, port)).0, SweepStep(x.client))
    case None => x.(client := SweepStep(x.client))
  }

  /** The next step of one createTunnel; a forward request comes with a tunnel object that is new to the server. */
  ghost function CreateMove<T>(lim: Limits, cid: nat, x: System<T>, n: string, id: T): System<T> {
    var c := x.client;
    if n !in c.pending then x
    else match c.pending[n]
      case Asking(t) =>
        if id in x.server.tunnels then x
        else
          var (s', reply) := Step(lim, x.server, Forward(cid, "0.0.0.0", t.remotePort, 0, true, id));
          System(s', Answered(c, n, reply))
      case Storing(_, _) => x.(client := Stored(c, n))
      case Informing(t, p) =>
        System(Step(lim, x.server, Info(cid, p, t.name, Address(t), t.timeout)).0, Done(c, n))
  }

  ghost function Moved<T>(lim: Limits, cid: nat, want: map<string, TunnelConfig>, x: System<T>, m: Move<T>): System<T> {
    match m
    case Elsewhere(e) =>
      var s' := Step(lim, x.server, e).0;
      if Foreign(e, cid) && Unclaimed(s', cid, want) then x.(server := s') else x
    case Sweep => SweepMove(lim, cid, x)
    case Create(n, id) => CreateMove(lim, cid, x, n, id)
  }

  // ---------- every move keeps the reload going ----------

  ghost predicate Safe<T>(lim: Limits, cid: nat, want: map<string, TunnelConfig>, x: System<T>) {
    Sound(lim, cid, want, x.server) && Going(Mine(x.server, cid), want, x.client)
  }

  lemma ElsewhereIsSafe<T>(lim: Limits, cid: nat, want: map<string, TunnelConfig>, x: System<T>, e: Event<T>)
    requires Safe(lim, cid, want, x)
    ensures Safe(lim, cid, want, Moved(lim, cid, want, x, Elsewhere(e)))
  {
    if Foreign(e, cid) && Unclaimed(Step(lim, x.server, e).0, cid, want) {
      InvKept(lim, x.server, e);
      ForeignSpares(lim, x.server, e, cid);
    }
  }

  lemma CancelIsSafe<T>(lim: Limits, cid: nat, want: map<string, TunnelConfig>, x: System<T>)
    requires Safe(lim, cid, want, x) && x.client.todo != []
    ensures Safe(lim, cid, want, SweepMove(lim, cid, x))
  {
    var port := x.client.table[x.client.todo[0]].port;
    assert NextCancel(x.client) == Some(port);
    SoundCancel(lim, cid, want, x.server, port);
    SweepOne(Mine(x.server, cid), want, x.client);
  }

  lemma StartIsSafe(lim: Limits, mine: map<nat, Told>, want: map<string, TunnelConfig>, c: Client)
    requires Going(mine, want, c) && c.todo == [] && Grantable(lim, want)
    ensures Going(mine, want, Launched(c))
  {
    if Sweeping(mine, want, c) {
      StartCreating(lim, mine, want, c);
    } else {
      NothingToLaunch(c);
    }
  }

  lemma SweepIsSafe<T>(lim: Limits, cid: nat, want: map<string, TunnelConfig>, x: System<T>)
    requires Safe(lim, cid, want, x) && Grantable(lim, want)
    ensures Safe(lim, cid, want, SweepMove(lim, cid, x))
  {
    if x.client.todo != [] {
      CancelIsSafe(lim, cid, want, x);
    } else {
      StartIsSafe(lim, Mine(x.server, cid), want, x.client);
    }
  }

  /** A creation never fails: its request, whenever it comes, is answered with the port it asks for. */
  lemma CreationIsGranted<T>(lim: Limits, cid: nat, want: map<string, TunnelConfig>, x: System<T>, n: string, id: T)
    requires Safe(lim, cid, want, x) && Grantable(lim, want)
    requires n in x.client.pending && x.client.pending[n].Asking? && id !in x.server.tunnels
    ensures n in want
    ensures CreateMove(lim, cid, x, n, id).client == Answered(x.client, n, Port(want[n].remotePort))
    ensures Safe(lim, cid, want, CreateMove(lim, cid, x, n, id))
  {
    var mine := Mine(x.server, cid);
    assert OwnPort(want, n) && GoodPort(lim, want[n].remotePort);
    RoomToAsk(mine, want, x.client, n);
    AnsweredKeeps(mine, want, x.client, n, Told("", "0.0.0.0", 0));
    SoundForward(lim, cid, want, x.server, n, id);
  }

  lemma InformingIsSafe<T>(lim: Limits, cid: nat, want: map<string, TunnelConfig>, x: System<T>, n: string, id: T)
    requires Safe(lim, cid, want, x) && Grantable(lim, want) && n in x.client.pending && x.client.pending[n].Informing?
    ensures Safe(lim, cid, want, CreateMove(lim, cid, x, n, id))
  {
    assert OwnPort(want, n);
    DoneKeeps(Mine(x.server, cid), want, x.client, n);
    SoundInfo(lim, cid, want, x.server, want[n].remotePort, want[n]);
  }

  lemma CreateIsSafe<T>(lim: Limits, cid: nat, want: map<string, TunnelConfig>, x: System<T>, n: string, id: T)
    requires Safe(lim, cid, want, x) && Grantable(lim, want)
    ensures Safe(lim, cid, want, CreateMove(lim, cid, x, n, id))
  {
    if n in x.client.pending {
      match x.client.pending[n]
      case Asking(_) =>
        if id !in x.server.tunnels {
          CreationIsGranted(lim, cid, want, x, n, id);
        }
      case Storing(_, _) =>
        assert OwnPort(want, n);
        StoredKeeps(Mine(x.server, cid), want, x.client, n);
      case Informing(_, _) =>
        InformingIsSafe(lim, cid, want, x, n, id);
    }
  }

  lemma MoveIsSafe<T>(lim: Limits, cid: nat, want: map<string, TunnelConfig>, x: System<T>, m: Move<T>)
    requires Safe(lim, cid, want, x) && Grantable(lim, want)
    ensures Safe(lim, cid, want, Moved(lim, cid, want, x, m))
  {
    match m
    case Elsewhere(e) => ElsewhereIsSafe(lim, cid, want, x, e);
    case Sweep => SweepIsSafe(lim, cid, want, x);
    case Create(n, id) => CreateIsSafe(lim, cid, want, x, n, id);
  }

  // ---------- whole reloads ----------

  ghost function Run<T>(lim: Limits, cid: nat, want: map<string, TunnelConfig>, x: System<T>, moves: seq<Move<T>>)
    : System<T>
    decreases |moves|
  {
    if |moves| == 0 then x else Run(lim, cid, want, Moved(lim, cid, want, x, moves[0]), moves[1..])
  }

  lemma {:induction false} RunIsSafe<T>(lim: Limits, cid: nat, want: map<string, TunnelConfig>, x: System<T>,
                                        moves: seq<Move<T>>)
    requires Safe(lim, cid, want, x) && Grantable(lim, want)
    ensures Safe(lim, cid, want, Run(lim, cid, want, x, moves))
    decreases |moves|
  {
    if |moves| > 0 {
      MoveIsSafe(lim, cid, want, x, moves[0]);
      RunIsSafe(lim, cid, want, Moved(lim, cid, want, x, moves[0]), moves[1..]);
    }
  }

  lemma BeginIsPlanned(table: map<string, Handle>, want: map<string, TunnelConfig>, order: seq<string>)
    requires Named(want) && Lists(order, Cancelled(Configs(table), want))
    requires forall n :: n in table ==> table[n].tunnel.name == n
    ensures Planned(want, Begin(table, want, order))
  {
    assert forall i :: 0 <= i < |order| ==> order[i] in order;
  }

  /** Client table and session agree, the configuration can be granted, and nobody else holds a port it names. */
  ghost predicate Ready<T>(lim: Limits, cid: nat, server: State<T>, table: map<string, Handle>,
                           want: map<string, TunnelConfig>, order: seq<string>)
  {
    && Sound(lim, cid, want, server) && Synced(Mine(server, cid), table)
    && Grantable(lim, want) && Lists(order, Cancelled(Configs(table), want))
  }

  /** The first connection is such a reload: an empty table over a session that has no ports yet. */
  lemma FirstConnectionIsReady<T>(lim: Limits, evs: seq<Event<T>>, cid: nat, want: map<string, TunnelConfig>)
    requires Grantable(lim, want)
    requires var s := SessionsLaws.Run(lim, evs);
      cid in s.sessions && s.sessions[cid] == map[] && Unclaimed(s, cid, want)
    ensures Ready(lim, cid, SessionsLaws.Run(lim, evs), map[], want, [])
  {
    SessionsLaws.RunKeepsInv(lim, evs);
    assert Configs(map[]) == map[];
  }

  /** The state of a reload that has come as far as these moves. */
  ghost function Reloading<T>(lim: Limits, cid: nat, server: State<T>, table: map<string, Handle>,
                              want: map<string, TunnelConfig>, order: seq<string>, moves: seq<Move<T>>): System<T>
  {
    Run(lim, cid, want, System(server, Begin(table, want, order)), moves)
  }

  lemma BeginIsSafe<T>(lim: Limits, cid: nat, server: State<T>, table: map<string, Handle>,
                       want: map<string, TunnelConfig>, order: seq<string>)
    requires Ready(lim, cid, server, table, want, order)
    ensures Safe(lim, cid, want, System(server, Begin(table, want, order)))
  {
    forall n | n in table ensures table[n].tunnel.name == n {
      assert GoodHandle(Mine(server, cid), n, table[n]);
    }
    BeginIsPlanned(table, want, order);
  }

  lemma ReloadingIsSafe<T>(lim: Limits, cid: nat, server: State<T>, table: map<string, Handle>,
                           want: map<string, TunnelConfig>, order: seq<string>, moves: seq<Move<T>>)
    requires Ready(lim, cid, server, table, want, order)
    ensures Safe(lim, cid, want, Reloading(lim, cid, server, table, want, order, moves))
  {
    BeginIsSafe(lim, cid, server, table, want, order);
    RunIsSafe(lim, cid, want, System(server, Begin(table, want, order)), moves);
  }

  /**
   Every creation succeeds: however the client's goroutines interleave with each other and with everything else that
   happens at the server, port swaps included, a forward request is answered with the port that it names.
   */
  lemma EveryCreationSucceeds<T>(lim: Limits, cid: nat, server: State<T>, table: map<string, Handle>,
                                 want: map<string, TunnelConfig>, order: seq<string>, moves: seq<Move<T>>,
                                 n: string, id: T)
    requires Ready(lim, cid, server, table, want, order)
    requires var x := Reloading(lim, cid, server, table, want, order, moves);
      n in x.client.pending && x.client.pending[n].Asking? && id !in x.server.tunnels
    ensures var x := Reloading(lim, cid, server, table, want, order, moves);
      n in want && CreateMove(lim, cid, x, n, id).client == Answered(x.client, n, Port(want[n].remotePort))
  {
    ReloadingIsSafe(lim, cid, server, table, want, order, moves);
    CreationIsGranted(lim, cid, want, Reloading(lim, cid, server, table, want, order, moves), n, id);
  }

  /**
   The server's tunnel has the name and the timeout of t, and as its local address the text of t's, a colon, and the
   decimal digits of t's port, which need not be read where it is negative.
   */
  ghost predicate SetUp(r: Tunnel, t: TunnelConfig) {
    && r.name == t.name && r.timeout == t.timeout && t.localIP + ":" <= r.localAddr
    && (t.localPort >= 0 ==>
          var port := r.localAddr[|t.localIP| + 1..];
          Value(port) == t.localPort && forall i :: 0 <= i < |port| ==> '0' <= port[i] <= '9')
  }

  /** The session's ports are the configured ones, and under each is a tunnel set up as it is configured. */
  ghost predicate Serves<T>(s: State<T>, cid: nat, want: map<string, TunnelConfig>) {
    && Closed(s) && cid in s.sessions && s.sessions[cid].Keys == (set n | n in want :: want[n].remotePort)
    && forall n :: n in want ==> SetUp(s.tunnels[s.sessions[cid][want[n].remotePort]], want[n])
  }

  lemma ToldIsSetUp(r: Tunnel, t: TunnelConfig)
    requires Told(r.name, r.localAddr, r.timeout) == Telling(t)
    ensures SetUp(r, t)
  {
    AddressReads(t);
  }

  lemma ServesTheConfiguration<T>(lim: Limits, s: State<T>, cid: nat, want: map<string, TunnelConfig>)
    requires Closed(s) && cid in s.sessions && Grantable(lim, want)
    requires Mine(s, cid) == (map p | p in Ports(want) :: Telling(Owner(want, p)))
    ensures Serves(s, cid, want)
  {
    assert Mine(s, cid).Keys == s.sessions[cid].Keys;
    forall n | n in want ensures SetUp(s.tunnels[s.sessions[cid][want[n].remotePort]], want[n]) {
      assert want[n].remotePort in Ports(want) && OwnPort(want, n);
      assert Mine(s, cid)[want[n].remotePort] == Telling(want[n]);
      ToldIsSetUp(s.tunnels[s.sessions[cid][want[n].remotePort]], want[n]);
    }
  }

  /**
   Reload converges: once the reload is finished, in whatever order things happened, the session's ports at the server
   are exactly the configured ones, each tunnel set up with its configured name, address and timeout; the client's
   table is the configuration; and table and session agree again, ready for the next reload.
   */
  lemma Converges<T>(lim: Limits, cid: nat, server: State<T>, table: map<string, Handle>,
                     ts: seq<TunnelConfig>, order: seq<string>, moves: seq<Move<T>>)
    requires Ready(lim, cid, server, table, Wanted(ts), order)
    requires Finished(Reloading(lim, cid, server, table, Wanted(ts), order, moves).client)
    ensures var want := Wanted(ts);
      var x := Reloading(lim, cid, server, table, want, order, moves);
      && Sound(lim, cid, want, x.server)
      && Mine(x.server, cid) == (map p | p in Ports(want) :: Telling(Owner(want, p)))
      && Configs(x.client.table) == want
      && Synced(Mine(x.server, cid), x.client.table)
      && Serves(x.server, cid, want)
  {
    var want := Wanted(ts);
    var x := Reloading(lim, cid, server, table, want, order, moves);
    ReloadingIsSafe(lim, cid, server, table, want, order, moves);
    EndIsTheConfiguration(lim, Mine(x.server, cid), want, x.client);
    ServesTheConfiguration(lim, x.server, cid, want);
  }

  // ---------- every fair schedule finishes ----------

  function Sweeps<T>(moves: seq<Move<T>>): nat {
    if |moves| == 0 then 0 else (if moves[0].Sweep? then 1 else 0) + Sweeps(moves[1..])
  }

  function Turns<T>(moves: seq<Move<T>>, n: string): nat {
    if |moves| == 0 then 0 else (if moves[0].Create? && moves[0].name == n then 1 else 0) + Turns(moves[1..], n)
  }

  /** The tunnel object that a move brings along. */
  ghost function IdsOf<T>(m: Move<T>): set<T> {
    match m
    case Create(_, id) => {id}
    case Elsewhere(Forward(_, _, _, _, _, id)) => {id}
    case _ => {}
  }

  /** Every tunnel object is new: not one of these, and not one that came before. */
  ghost predicate NewObjects<T>(known: set<T>, moves: seq<Move<T>>)
    decreases |moves|
  {
    |moves| == 0 || (IdsOf(moves[0]) !! known && NewObjects(known + IdsOf(moves[0]), moves[1..]))
  }

  lemma StepBringsObjects<T>(lim: Limits, s: State<T>, e: Event<T>)
    ensures Step(lim, s, e).0.tunnels.Keys <= s.tunnels.Keys + if e.Forward? then {e.id} else {}
  {
  }

  lemma MoveBringsObjects<T>(lim: Limits, cid: nat, want: map<string, TunnelConfig>, x: System<T>, m: Move<T>)
    ensures Moved(lim, cid, want, x, m).server.tunnels.Keys <= x.server.tunnels.Keys + IdsOf(m)
  {
    var c := x.client;
    match m
    case Elsewhere(e) => StepBringsObjects(lim, x.server, e);
    case Sweep =>
      if c.todo != [] && c.todo[0] in c.table {
        StepBringsObjects(lim, x.server, Event.Cancel(cid, c.table[c.todo[0]].port));
      }
    case Create(n, id) =>
      if n in c.pending {
        match c.pending[n]
        case Asking(t) => StepBringsObjects(lim, x.server, Forward(cid, "0.0.0.0", t.remotePort, 0, true, id));
        case Storing(_, _) =>
        case Informing(t, p) => StepBringsObjects(lim, x.server, Info(cid, p, t.name, Address(t), t.timeout));
      }
  }

  /** The sweep's part of the schedule: what it has left falls with each of its turns, and nobody else touches it. */
  lemma {:induction false} SweepTurns<T>(lim: Limits, cid: nat, want: map<string, TunnelConfig>, x: System<T>,
                                         moves: seq<Move<T>>)
    requires Safe(lim, cid, want, x) && Grantable(lim, want)
    ensures var c := Run(lim, cid, want, x, moves).client;
      SweepsLeft(c) == 0 || SweepsLeft(c) + Sweeps(moves) <= SweepsLeft(x.client)
    decreases |moves|
  {
    if |moves| > 0 {
      MoveIsSafe(lim, cid, want, x, moves[0]);
      SweepTurn(lim, cid, want, x, moves[0]);
      SweepTurns(lim, cid, want, Moved(lim, cid, want, x, moves[0]), moves[1..]);
    }
  }

  lemma SweepTurn<T>(lim: Limits, cid: nat, want: map<string, TunnelConfig>, x: System<T>, m: Move<T>)
    requires x.client.todo != [] ==> x.client.todo[0] in x.client.table
    ensures var left := SweepsLeft(Moved(lim, cid, want, x, m).client);
      if m.Sweep? then left == 0 || left < SweepsLeft(x.client) else left == SweepsLeft(x.client)
  {
  }

  /** A turn of a creation concerns that creation alone, and takes one step off its way. */
  lemma OwnTurn<T>(lim: Limits, cid: nat, x: System<T>, m: string, id: T, n: string)
    requires m in x.client.pending && x.client.pending[m].Asking? ==>
      id !in x.server.tunnels && exists p :: CreateMove(lim, cid, x, m, id).client == Answered(x.client, m, Port(p))
    ensures var c, c' := x.client, CreateMove(lim, cid, x, m, id).client;
      && c'.todo == c.todo && c'.launch == c.launch
      && TurnsLeft(c', n) == TurnsLeft(c, n) - if m == n && TurnsLeft(c, n) > 0 then 1 else 0
  {
  }

  lemma CreationTurn<T>(lim: Limits, cid: nat, want: map<string, TunnelConfig>, x: System<T>, m: string, id: T,
                        n: string)
    requires Safe(lim, cid, want, x) && Grantable(lim, want) && id !in x.server.tunnels
    ensures var c, c' := x.client, CreateMove(lim, cid, x, m, id).client;
      && c'.todo == c.todo && c'.launch == c.launch
      && TurnsLeft(c', n) == TurnsLeft(c, n) - if m == n && TurnsLeft(c, n) > 0 then 1 else 0
  {
    if m in x.client.pending && x.client.pending[m].Asking? {
      CreationIsGranted(lim, cid, want, x, m, id);
    }
    OwnTurn(lim, cid, x, m, id, n);
  }

  /** Once the creations have started, each turn of one of them takes one step off its way, and no other move does. */
  lemma CreateTurn<T>(lim: Limits, cid: nat, want: map<string, TunnelConfig>, x: System<T>, m: Move<T>, n: string)
    requires Safe(lim, cid, want, x) && Grantable(lim, want) && SweepsLeft(x.client) == 0
    requires m.Create? ==> m.id !in x.server.tunnels
    ensures var c := Moved(lim, cid, want, x, m).client;
      var left := TurnsLeft(x.client, n);
      SweepsLeft(c) == 0 && TurnsLeft(c, n) == left - if m.Create? && m.name == n && left > 0 then 1 else 0
  {
    match m
    case Elsewhere(_) =>
    case Sweep => NothingToLaunch(x.client);
    case Create(k, id) => CreationTurn(lim, cid, want, x, k, id, n);
  }

  /** The creations have started, and the tunnel objects of the server are known. */
  ghost predicate Steady<T>(lim: Limits, cid: nat, want: map<string, TunnelConfig>, x: System<T>, known: set<T>) {
    Safe(lim, cid, want, x) && SweepsLeft(x.client) == 0 && x.server.tunnels.Keys <= known
  }

  lemma SteadyMove<T>(lim: Limits, cid: nat, want: map<string, TunnelConfig>, x: System<T>, m: Move<T>, known: set<T>,
                      n: string)
    requires Steady(lim, cid, want, x, known) && Grantable(lim, want) && IdsOf(m) !! known
    ensures var x' := Moved(lim, cid, want, x, m);
      var left := TurnsLeft(x.client, n);
      && Steady(lim, cid, want, x', known + IdsOf(m))
      && TurnsLeft(x'.client, n) == left - if m.Create? && m.name == n && left > 0 then 1 else 0
  {
    MoveIsSafe(lim, cid, want, x, m);
    assert m.Create? ==> m.id in IdsOf(m);
    CreateTurn(lim, cid, want, x, m, n);
    MoveBringsObjects(lim, cid, want, x, m);
  }

  lemma {:induction false} CreateTurns<T>(lim: Limits, cid: nat, want: map<string, TunnelConfig>, x: System<T>,
                                          moves: seq<Move<T>>, known: set<T>, n: string)
    requires Steady(lim, cid, want, x, known) && Grantable(lim, want) && NewObjects(known, moves)
    ensures var c := Run(lim, cid, want, x, moves).client;
      && SweepsLeft(c) == 0
      && (TurnsLeft(c, n) == 0 || TurnsLeft(c, n) + Turns(moves, n) <= TurnsLeft(x.client, n))
    decreases |moves|
  {
    if |moves| > 0 {
      SteadyMove(lim, cid, want, x, moves[0], known, n);
      CreateTurns(lim, cid, want, Moved(lim, cid, want, x, moves[0]), moves[1..], known + IdsOf(moves[0]), n);
    }
  }

  /** A schedule taken apart: the state in the middle, and which objects are known by then. */
  lemma {:induction false} RunSplits<T>(lim: Limits, cid: nat, want: map<string, TunnelConfig>, x: System<T>,
                                        a: seq<Move<T>>, b: seq<Move<T>>, known: set<T>) returns (known': set<T>)
    requires x.server.tunnels.Keys <= known && NewObjects(known, a + b)
    ensures Run(lim, cid, want, x, a + b) == Run(lim, cid, want, Run(lim, cid, want, x, a), b)
    ensures Run(lim, cid, want, x, a).server.tunnels.Keys <= known' && NewObjects(known', b)
    decreases |a|
  {
    if |a| == 0 {
      assert a + b == b;
      known' := known;
    } else {
      assert (a + b)[1..] == a[1..] + b;
      MoveBringsObjects(lim, cid, want, x, a[0]);
      known' := RunSplits(lim, cid, want, Moved(lim, cid, want, x, a[0]), a[1..], b, known + IdsOf(a[0]));
    }
  }

  /** The tunnels that a client still has to create, started or not. */
  ghost function Missing(c: Client): set<string> {
    c.launch.Keys + c.pending.Keys
  }

  /** No move adds to what is to be created. */
  lemma MissingShrinks<T>(lim: Limits, cid: nat, want: map<string, TunnelConfig>, x: System<T>, m: Move<T>)
    ensures Missing(Moved(lim, cid, want, x, m).client) <= Missing(x.client)
  {
  }

  lemma {:induction false} NothingElseMissing<T>(lim: Limits, cid: nat, want: map<string, TunnelConfig>, x: System<T>,
                                                 moves: seq<Move<T>>)
    ensures Missing(Run(lim, cid, want, x, moves).client) <= Missing(x.client)
    decreases |moves|
  {
    if |moves| > 0 {
      MissingShrinks(lim, cid, want, x, moves[0]);
      NothingElseMissing(lim, cid, want, Moved(lim, cid, want, x, moves[0]), moves[1..]);
    }
  }

  lemma NobodyPending(mine: map<nat, Told>, want: map<string, TunnelConfig>, c: Client)
    requires Going(mine, want, c) && SweepsLeft(c) == 0 && forall n :: n in Missing(c) ==> TurnsLeft(c, n) == 0
    ensures Finished(c)
  {
    forall n ensures n !in c.pending {
      assert n in Missing(c) ==> TurnsLeft(c, n) == 0;
    }
    assert c.pending.Keys == {};
  }

  /** From where the sweep has ended, three turns are enough for any creation. */
  lemma CreationFinishes<T>(lim: Limits, cid: nat, want: map<string, TunnelConfig>, x: System<T>,
                            moves: seq<Move<T>>, known: set<T>, n: string)
    requires Safe(lim, cid, want, x) && Grantable(lim, want) && SweepsLeft(x.client) == 0
    requires x.server.tunnels.Keys <= known && NewObjects(known, moves)
    ensures var c := Run(lim, cid, want, x, moves).client;
      SweepsLeft(c) == 0 && (Turns(moves, n) >= 3 ==> TurnsLeft(c, n) == 0)
  {
    CreateTurns(lim, cid, want, x, moves, known, n);
  }

  lemma CreationsFinish<T>(lim: Limits, cid: nat, want: map<string, TunnelConfig>, x: System<T>,
                           moves: seq<Move<T>>, known: set<T>)
    requires Safe(lim, cid, want, x) && Grantable(lim, want) && SweepsLeft(x.client) == 0
    requires x.server.tunnels.Keys <= known && NewObjects(known, moves)
    requires forall n :: n in Missing(x.client) ==> Turns(moves, n) >= 3
    ensures Finished(Run(lim, cid, want, x, moves).client)
  {
    var end := Run(lim, cid, want, x, moves);
    NothingElseMissing(lim, cid, want, x, moves);
    forall n
      ensures SweepsLeft(end.client) == 0
      ensures Turns(moves, n) >= 3 ==> TurnsLeft(end.client, n) == 0
    {
      CreationFinishes(lim, cid, want, x, moves, known, n);
    }
    CreationFinishes(lim, cid, want, x, moves, known, "");
    RunIsGoing(lim, cid, want, x, moves);
    NobodyPending(Mine(end.server, cid), want, end.client);
  }

  lemma RunIsGoing<T>(lim: Limits, cid: nat, want: map<string, TunnelConfig>, x: System<T>, moves: seq<Move<T>>)
    requires Safe(lim, cid, want, x) && Grantable(lim, want)
    ensures var end := Run(lim, cid, want, x, moves);
      Closed(end.server) && cid in end.server.sessions && Going(Mine(end.server, cid), want, end.client)
  {
    RunIsSafe(lim, cid, want, x, moves);
  }

  /** Two turns for each handle to cancel and one more are enough for the sweep. */
  lemma SweepFinishes<T>(lim: Limits, cid: nat, server: State<T>, table: map<string, Handle>,
                         want: map<string, TunnelConfig>, order: seq<string>, moves: seq<Move<T>>)
    requires Ready(lim, cid, server, table, want, order) && Sweeps(moves) >= 2 * |order| + 1
    ensures var x := Reloading(lim, cid, server, table, want, order, moves);
      Safe(lim, cid, want, x) && SweepsLeft(x.client) == 0
  {
    BeginIsSafe(lim, cid, server, table, want, order);
    SweepTurns(lim, cid, want, System(server, Begin(table, want, order)), moves);
    ReloadingIsSafe(lim, cid, server, table, want, order, moves);
  }

  lemma OnlyNewIsMissing<T>(lim: Limits, cid: nat, server: State<T>, table: map<string, Handle>,
                            want: map<string, TunnelConfig>, order: seq<string>, moves: seq<Move<T>>)
    ensures Missing(Reloading(lim, cid, server, table, want, order, moves).client) <= Created(Configs(table), want).Keys
  {
    NothingElseMissing(lim, cid, want, System(server, Begin(table, want, order)), moves);
  }

  /**
   Every fair schedule finishes: once the sweep has had two turns for each handle it cancels and one more, three turns
   for each tunnel to create are enough, whatever the others do in between and however the turns are mixed.
   */
  lemma FairSchedulesFinish<T>(lim: Limits, cid: nat, server: State<T>, table: map<string, Handle>,
                               want: map<string, TunnelConfig>, order: seq<string>,
                               early: seq<Move<T>>, late: seq<Move<T>>)
    requires Ready(lim, cid, server, table, want, order) && NewObjects(server.tunnels.Keys, early + late)
    requires Sweeps(early) >= 2 * |order| + 1
    requires forall n :: n in Created(Configs(table), want) ==> Turns(late, n) >= 3
    ensures Finished(Reloading(lim, cid, server, table, want, order, early + late).client)
  {
    var start := System(server, Begin(table, want, order));
    var known := RunSplits(lim, cid, want, start, early, late, server.tunnels.Keys);
    SweepFinishes(lim, cid, server, table, want, order, early);
    OnlyNewIsMissing(lim, cid, server, table, want, order, early);
    CreationsFinish(lim, cid, want, Run(lim, cid, want, start, early), late, known);
  }
}
