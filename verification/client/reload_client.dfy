/**
 The client's side of a reload, step by step: the table and the goroutines of pkg/client/client.go while ReloadTunnels
 and the createTunnel goroutines run, against what the server knows of the session. What every such step keeps.
 */
module ReloadClient {
  import opened Basics
  import opened Options
  import opened SessionsSpec
  import opened ReloadSpec
  import opened Decimals

  datatype Handle = Handle(tunnel: TunnelConfig, port: nat)

  /** A createTunnel goroutine: before its forward request, before it stores its handle, before it sends tunnel info. */
  datatype Creation =
    | Asking(tunnel: TunnelConfig)
    | Storing(tunnel: TunnelConfig, port: nat)
    | Informing(tunnel: TunnelConfig, port: nat)

  /**
   `todo` are the handles still to be cancelled, `half` tells that the first of the two cancels of the next one has been
   answered, `launch` are the tunnels to create after that, `pending` the goroutines.
   */
  datatype Client = Client(table: map<string, Handle>, todo: seq<string>, half: bool,
                           launch: map<string, TunnelConfig>, pending: map<string, Creation>)

  /** What the handles were made for. */
  function Configs(table: map<string, Handle>): map<string, TunnelConfig> {
    map n | n in table :: table[n].tunnel
  }

  /** The client at the start of ReloadTunnels; `order` is the order in which its range meets what it cancels. */
  ghost function Begin(table: map<string, Handle>, want: map<string, TunnelConfig>, order: seq<string>): Client {
    Client(table, order, false, Created(Configs(table), want), map[])
  }

  // ---------- the steps ----------

  /** The next handle has been cancelled, once by cancelPortForward or a second time by closing its listener. */
  ghost function Cancelling(c: Client): Client
    requires c.todo != []
  {
    if !c.half then c.(half := true) else c.(table := c.table - {c.todo[0]}, todo := c.todo[1..], half := false)
  }

  /** The goroutines that ask for these tunnels. */
  function AskingFor(ts: map<string, TunnelConfig>): map<string, Creation> {
    map n | n in ts :: Asking(ts[n])
  }

  /** The third loop: a goroutine for each tunnel to create. */
  ghost function Launched(c: Client): Client {
    c.(launch := map[], pending := c.pending + AskingFor(c.launch))
  }

  /** The port of the cancel request that the sweep sends next, if one is left. */
  ghost function NextCancel(c: Client): Option<nat> {
    if c.todo != [] && c.todo[0] in c.table then Some(c.table[c.todo[0]].port) else None
  }

  /** The next step of ReloadTunnels: one cancel of one handle, or the start of all creations. */
  ghost function SweepStep(c: Client): Client {
    if c.todo == [] then Launched(c) else if c.todo[0] in c.table then Cancelling(c) else c
  }

  /** The forward request of a creation has been answered. */
  ghost function Answered(c: Client, n: string, reply: Reply): Client
    requires n in c.pending
  {
    c.(pending := if reply.Port? then c.pending[n := Storing(c.pending[n].tunnel, reply.port)] else c.pending - {n})
  }

  ghost function Stored(c: Client, n: string): Client
    requires n in c.pending && c.pending[n].Storing?
  {
    var t, p := c.pending[n].tunnel, c.pending[n].port;
    c.(table := c.table[t.name := Handle(t, p)], pending := c.pending[n := Informing(t, p)])
  }

  ghost function Done(c: Client, n: string): Client {
    c.(pending := c.pending - {n})
  }

  ghost predicate Finished(c: Client) {
    c.todo == [] && !c.half && c.launch == map[] && c.pending == map[]
  }

  // ---------- what the steps keep ----------

  function Address(t: TunnelConfig): string {
    t.localIP + ":" + Show(t.localPort)
  }

  /** The address is the local address, a colon, and the port in digits. */
  lemma AddressReads(t: TunnelConfig)
    ensures t.localIP + ":" <= Address(t)
    ensures t.localPort >= 0 ==>
      var port := Address(t)[|t.localIP| + 1..]; port == Digits(t.localPort) && Value(port) == t.localPort
  {
    if t.localPort >= 0 {
      ValueOfDigits(t.localPort);
      assert Address(t)[|t.localIP| + 1..] == Digits(t.localPort);
    }
  }

  /** What the server was told of a tunnel. */
  datatype Told = Told(name: string, localAddr: string, timeout: int)

  function Telling(t: TunnelConfig): Told {
    Told(t.name, Address(t), t.timeout)
  }

  ghost predicate GoodHandle(mine: map<nat, Told>, n: string, h: Handle) {
    && h.tunnel.name == n && (h.tunnel.remotePort != 0 ==> h.port == h.tunnel.remotePort)
    && h.port in mine && mine[h.port] == Telling(h.tunnel)
  }

  /**
   Table and session agree: each handle has its port at the server, each port its handle, and the server was told.
   `mine` are the ports of the session, with what the server was told of each.
   */
  ghost predicate Synced(mine: map<nat, Told>, table: map<string, Handle>) {
    && (forall n :: n in table ==> GoodHandle(mine, n, table[n]))
    && (forall n, m :: n in table && m in table && table[n].port == table[m].port ==> n == m)
    && (forall p :: p in mine ==> exists n :: n in table && table[n].port == p)
  }

  /** A port that the server may grant. */
  predicate GoodPort(lim: Limits, port: nat) {
    0 < port <= MAX_TCP_PORT && lim.minPort <= port <= lim.maxPort
  }

  /** Only this tunnel asks for its port. */
  ghost predicate OwnPort(want: map<string, TunnelConfig>, n: string)
    requires n in want
  {
    forall m :: m in want && want[m].remotePort == want[n].remotePort ==> m == n
  }

  /** The configuration asks for distinct ports that the server may grant, and for no more than it allows. */
  ghost predicate Grantable(lim: Limits, want: map<string, TunnelConfig>) {
    && Named(want) && |want| <= lim.maxTunnels
    && forall n :: n in want ==> GoodPort(lim, want[n].remotePort) && OwnPort(want, n)
  }

  /** The handles still to be cancelled are in the table, each once; the others are configured as they are. */
  ghost predicate Planned(want: map<string, TunnelConfig>, c: Client) {
    && c.pending == map[] && (c.half ==> c.todo != [])
    && (forall i :: 0 <= i < |c.todo| ==> c.todo[i] in c.table)
    && (forall i, j :: 0 <= i < j < |c.todo| ==> c.todo[i] != c.todo[j])
    && (forall n :: n in c.table && n !in c.todo ==> n in want && c.table[n].tunnel == want[n])
    && (forall n :: n in c.launch <==> n in want && (n in c.table ==> n in c.todo))
    && (forall n :: n in c.launch ==> c.launch[n] == want[n])
  }

  /** The handles whose ports the session still has. */
  ghost function Open(c: Client): map<string, Handle> {
    if c.half && c.todo != [] then c.table - {c.todo[0]} else c.table
  }

  ghost predicate Sweeping(mine: map<nat, Told>, want: map<string, TunnelConfig>, c: Client) {
    Planned(want, c) && Synced(mine, Open(c)) && (c.half ==> c.table[c.todo[0]].port !in mine)
  }

  /** How far the tunnel of this name has come: at the server, in the table, and in its goroutine. */
  ghost predicate OnItsWay(mine: map<nat, Told>, c: Client, n: string, t: TunnelConfig) {
    && (n in c.table ==> c.table[n] == Handle(t, t.remotePort))
    && if n !in c.pending then n in c.table && t.remotePort in mine && mine[t.remotePort] == Telling(t)
       else match c.pending[n]
         case Asking(u) => u == t && n !in c.table && t.remotePort !in mine
         case Storing(u, p) => u == t && p == t.remotePort && n !in c.table && t.remotePort in mine
         case Informing(u, p) => u == t && p == t.remotePort && n in c.table && t.remotePort in mine
  }

  ghost function Ports(want: map<string, TunnelConfig>): set<nat> {
    set n | n in want :: want[n].remotePort
  }

  ghost predicate Creating(mine: map<nat, Told>, want: map<string, TunnelConfig>, c: Client) {
    && c.todo == [] && !c.half && c.launch == map[] && c.table.Keys <= want.Keys && c.pending.Keys <= want.Keys
    && (forall n :: n in want ==> OnItsWay(mine, c, n, want[n]))
    && mine.Keys <= Ports(want)
  }

  ghost predicate Going(mine: map<nat, Told>, want: map<string, TunnelConfig>, c: Client) {
    Sweeping(mine, want, c) || Creating(mine, want, c)
  }

  // ---------- the sweep ----------

  lemma CancelledSynced(mine: map<nat, Told>, table: map<string, Handle>, name: string)
    requires Synced(mine, table) && name in table
    ensures Synced(mine - {table[name].port}, table - {name})
  {
    var mine', table' := mine - {table[name].port}, table - {name};
    forall n | n in table' ensures GoodHandle(mine', n, table'[n]) {
      assert GoodHandle(mine, n, table[n]);
    }
    forall p | p in mine' ensures exists n :: n in table' && table'[n].port == p {
      var n :| n in table && table[n].port == p;
      assert n in table';
    }
  }

  lemma CancelledPlanned(want: map<string, TunnelConfig>, c: Client)
    requires Planned(want, c) && c.todo != []
    ensures Planned(want, Cancelling(c))
  {
    assert forall n :: n in c.todo <==> n == c.todo[0] || n in c.todo[1..];
  }

  lemma FirstCancel(mine: map<nat, Told>, want: map<string, TunnelConfig>, c: Client)
    requires Sweeping(mine, want, c) && c.todo != [] && !c.half
    ensures Sweeping(mine - {c.table[c.todo[0]].port}, want, Cancelling(c))
  {
    CancelledPlanned(want, c);
    CancelledSynced(mine, c.table, c.todo[0]);
  }

  lemma NothingToTake(mine: map<nat, Told>, port: nat)
    requires port !in mine
    ensures mine - {port} == mine
  {
  }

  lemma SameOpen(c: Client)
    requires c.todo != [] && c.half
    ensures Open(Cancelling(c)) == Open(c)
  {
    assert Cancelling(c).table == Open(c);
  }

  lemma SecondCancel(mine: map<nat, Told>, want: map<string, TunnelConfig>, c: Client)
    requires Sweeping(mine, want, c) && c.todo != [] && c.half
    ensures Sweeping(mine - {c.table[c.todo[0]].port}, want, Cancelling(c))
  {
    NothingToTake(mine, c.table[c.todo[0]].port);
    SameOpen(c);
    CancelledPlanned(want, c);
  }

  /** The first cancel of a handle takes its port, the second takes nothing; then the handle is gone. */
  lemma SweepOne(mine: map<nat, Told>, want: map<string, TunnelConfig>, c: Client)
    requires Sweeping(mine, want, c) && c.todo != []
    ensures Sweeping(mine - {c.table[c.todo[0]].port}, want, Cancelling(c))
  {
    if c.half {
      SecondCancel(mine, want, c);
    } else {
      FirstCancel(mine, want, c);
    }
  }

  // ---------- the whole sweep ----------

  /** The client after k steps of the sweep, and the cancel requests it has sent. */
  ghost function SweepRun(c: Client, k: nat): (Client, seq<nat>) {
    if k == 0 then (c, [])
    else
      var (d, sent) := SweepRun(c, k - 1);
      (SweepStep(d), sent + if NextCancel(d).Some? then [NextCancel(d).value] else [])
  }

  /** The cancel requests for these tunnels: one from cancelPortForward, one more from closing the listener. */
  function CancelRequests(table: map<string, Handle>, names: seq<string>): seq<nat>
    requires forall n :: n in names ==> n in table
  {
    if |names| == 0 then []
    else
      var port := table[names[|names| - 1]].port;
      CancelRequests(table, names[..|names| - 1]) + [port, port]
  }

  /** The requests one by one: each name's port twice. */
  lemma {:induction false} RequestsAt(table: map<string, Handle>, names: seq<string>)
    requires forall n :: n in names ==> n in table
    ensures |CancelRequests(table, names)| == 2 * |names|
    ensures forall k :: 0 <= k < |names| ==>
      CancelRequests(table, names)[2 * k] == table[names[k]].port == CancelRequests(table, names)[2 * k + 1]
  {
    if |names| > 0 {
      RequestsAt(table, names[..|names| - 1]);
    }
  }

  ghost function Members(names: seq<string>): set<string> {
    set n | n in names
  }

  /** After two steps for each of the first i handles these are gone, and their requests have been sent. */
  lemma {:induction false} SweepSends(c: Client, i: nat)
    requires !c.half && i <= |c.todo| && forall n :: n in c.todo ==> n in c.table
    requires forall i, j :: 0 <= i < j < |c.todo| ==> c.todo[i] != c.todo[j]
    ensures SweepRun(c, 2 * i) == (c.(table := c.table - Members(c.todo[..i]), todo := c.todo[i..]),
                                   CancelRequests(c.table, c.todo[..i]))
  {
    if i == 0 {
      assert c.table - Members(c.todo[..0]) == c.table && c.todo[0..] == c.todo;
    } else {
      SweepSends(c, i - 1);
      TwoCancels(c, i - 1);
    }
  }

  lemma TwoCancels(c: Client, i: nat)
    requires !c.half && i < |c.todo| && forall n :: n in c.todo ==> n in c.table
    requires forall i, j :: 0 <= i < j < |c.todo| ==> c.todo[i] != c.todo[j]
    requires SweepRun(c, 2 * i) == (c.(table := c.table - Members(c.todo[..i]), todo := c.todo[i..]),
                                    CancelRequests(c.table, c.todo[..i]))
    ensures SweepRun(c, 2 * (i + 1)) == (c.(table := c.table - Members(c.todo[..i + 1]), todo := c.todo[i + 1..]),
                                         CancelRequests(c.table, c.todo[..i + 1]))
  {
    var name, done := c.todo[i], c.todo[..i];
    var d := c.(table := c.table - Members(done), todo := c.todo[i..]);
    var p := c.table[name].port;
    assert name in c.todo && name !in done && d.todo[0] == name && d.todo[1..] == c.todo[i + 1..];
    assert c.todo[..i + 1] == done + [name] && (done + [name])[..i] == done;
    assert c.table - Members(done) - {name} == c.table - Members(done + [name]);
    var sent := CancelRequests(c.table, done);
    assert SweepRun(c, 2 * i + 1) == (d.(half := true), sent + [p]);
    assert sent + [p] + [p] == sent + [p, p];
  }

  /** The whole of ReloadTunnels: two cancels for each handle of `order`, in that order, then the creations start. */
  lemma SweepIsReload(table: map<string, Handle>, want: map<string, TunnelConfig>, order: seq<string>)
    requires Lists(order, Cancelled(Configs(table), want))
    ensures SweepRun(Begin(table, want, order), 2 * |order| + 1)
         == (Client(table - Cancelled(Configs(table), want), [], false, map[],
                    AskingFor(Created(Configs(table), want))),
             CancelRequests(table, order))
  {
    var c := Begin(table, want, order);
    SweepSends(c, |order|);
    assert order[..|order|] == order && order[|order|..] == [];
    assert Members(order) == Cancelled(Configs(table), want);
    var swept, sent := c.(table := c.table - Members(order), todo := []), CancelRequests(table, order);
    assert SweepRun(c, 2 * |order|) == (swept, sent) && sent + [] == sent;
    assert map[] + AskingFor(c.launch) == AskingFor(c.launch);
    assert SweepStep(swept) == Client(swept.table, [], false, map[], AskingFor(c.launch));
  }

  // ---------- the start of the creations ----------

  lemma SweptPorts(mine: map<nat, Told>, table: map<string, Handle>, want: map<string, TunnelConfig>)
    requires Synced(mine, table)
    requires forall n :: n in table ==> n in want && table[n].tunnel == want[n] && want[n].remotePort != 0
    ensures mine.Keys <= Ports(want)
  {
    forall p | p in mine ensures p in Ports(want) {
      var n :| n in table && table[n].port == p;
      assert GoodHandle(mine, n, table[n]);
    }
  }

  /** A tunnel that stays is where it should be; the port of one that is missing is free. */
  lemma SweptAt(mine: map<nat, Told>, table: map<string, Handle>, want: map<string, TunnelConfig>, n: string)
    requires Synced(mine, table) && n in want && OwnPort(want, n)
    requires forall m :: m in table ==> m in want && table[m].tunnel == want[m] && want[m].remotePort != 0
    ensures n in table ==> GoodHandle(mine, n, table[n])
    ensures n !in table ==> want[n].remotePort !in mine
  {
    if n !in table {
      forall m | m in table ensures table[m].port != want[n].remotePort {
        assert GoodHandle(mine, m, table[m]);
      }
    }
  }

  lemma StartAt(mine: map<nat, Told>, want: map<string, TunnelConfig>, c: Client, n: string)
    requires Planned(want, c) && c.todo == [] && n in want && want[n].remotePort != 0
    requires n in c.table ==> GoodHandle(mine, n, c.table[n])
    requires n !in c.table ==> want[n].remotePort !in mine
    ensures OnItsWay(mine, Launched(c), n, want[n])
  {
  }

  lemma StartNames(want: map<string, TunnelConfig>, c: Client)
    requires Planned(want, c) && c.todo == []
    ensures c.table.Keys <= want.Keys && Launched(c).pending.Keys <= want.Keys
  {
  }

  /** Once all is cancelled that goes or changes, what is left is configured, and the rest is asked for. */
  lemma StartCreating(lim: Limits, mine: map<nat, Told>, want: map<string, TunnelConfig>, c: Client)
    requires Planned(want, c) && Synced(mine, c.table) && c.todo == [] && Grantable(lim, want)
    ensures Creating(mine, want, Launched(c))
  {
    StartNames(want, c);
    SweptPorts(mine, c.table, want);
    forall n | n in want ensures OnItsWay(mine, Launched(c), n, want[n]) {
      assert GoodPort(lim, want[n].remotePort);
      SweptAt(mine, c.table, want, n);
      StartAt(mine, want, c, n);
    }
  }

  lemma NothingToLaunch(c: Client)
    requires c.launch == map[]
    ensures Launched(c) == c
  {
  }

  // ---------- the creations ----------

  /** While a creation still asks, its port is free in the session and the session is below the limit. */
  lemma RoomToAsk(mine: map<nat, Told>, want: map<string, TunnelConfig>, c: Client, n: string)
    requires Creating(mine, want, c) && n in c.pending && c.pending[n].Asking?
    ensures want[n].remotePort !in mine && |mine| < |want|
  {
    assert OnItsWay(mine, c, n, want[n]);
    var others := want - {n};
    forall p | p in mine ensures p in Ports(others) {
      var m :| m in want && want[m].remotePort == p;
      assert m in others && others[m].remotePort == p;
    }
    ImageBound(others, others.Keys);
    SetSize(mine.Keys, Ports(others));
  }

  lemma {:induction false} ImageBound(want: map<string, TunnelConfig>, names: set<string>)
    requires names <= want.Keys
    ensures |set m | m in names :: want[m].remotePort| <= |names|
    decreases |names|
  {
    if names == {} {
      assert (set m | m in names :: want[m].remotePort) == {};
    } else {
      var n :| n in names;
      ImageBound(want, names - {n});
      assert (set m | m in names :: want[m].remotePort)
          == (set m | m in names - {n} :: want[m].remotePort) + {want[n].remotePort};
    }
  }

  ghost predicate SameBut<K(!new), V>(a: map<K, V>, b: map<K, V>, k: K) {
    forall x :: x != k ==> (x in a <==> x in b) && (x in a ==> a[x] == b[x])
  }

  /** A step of one creation concerns its own name only. */
  lemma OneCreationMoves(mine: map<nat, Told>, mine': map<nat, Told>, want: map<string, TunnelConfig>,
                         c: Client, c': Client, n: string)
    requires Creating(mine, want, c) && n in want && OwnPort(want, n)
    requires c'.todo == c.todo && c'.half == c.half && c'.launch == c.launch
    requires SameBut(c'.table, c.table, n) && SameBut(c'.pending, c.pending, n)
    requires SameBut(mine', mine, want[n].remotePort)
    requires OnItsWay(mine', c', n, want[n])
    ensures Creating(mine', want, c')
  {
    forall m | m in want ensures OnItsWay(mine', c', m, want[m]) {
      assert OnItsWay(mine, c, m, want[m]);
    }
    forall p | p in mine' ensures p in Ports(want) {
      assert p == want[n].remotePort || p in mine;
    }
  }

  lemma AnsweredKeeps(mine: map<nat, Told>, want: map<string, TunnelConfig>, c: Client, n: string, told: Told)
    requires Creating(mine, want, c) && n in c.pending && c.pending[n].Asking? && OwnPort(want, n)
    ensures c.pending[n].tunnel == want[n]
    ensures Creating(mine[want[n].remotePort := told], want, Answered(c, n, Port(want[n].remotePort)))
  {
    assert OnItsWay(mine, c, n, want[n]);
    OneCreationMoves(mine, mine[want[n].remotePort := told], want, c, Answered(c, n, Port(want[n].remotePort)), n);
  }

  lemma StoredKeeps(mine: map<nat, Told>, want: map<string, TunnelConfig>, c: Client, n: string)
    requires Creating(mine, want, c) && n in c.pending && c.pending[n].Storing? && OwnPort(want, n) && want[n].name == n
    ensures Creating(mine, want, Stored(c, n))
  {
    assert OnItsWay(mine, c, n, want[n]);
    OneCreationMoves(mine, mine, want, c, Stored(c, n), n);
  }

  lemma DoneKeeps(mine: map<nat, Told>, want: map<string, TunnelConfig>, c: Client, n: string)
    requires Creating(mine, want, c) && n in c.pending && c.pending[n].Informing? && OwnPort(want, n)
    ensures c.pending[n] == Informing(want[n], want[n].remotePort) && want[n].remotePort in mine
    ensures Creating(mine[want[n].remotePort := Telling(want[n])], want, Done(c, n))
  {
    assert OnItsWay(mine, c, n, want[n]);
    OneCreationMoves(mine, mine[want[n].remotePort := Telling(want[n])], want, c, Done(c, n), n);
  }

  // ---------- the end ----------

  /** The tunnel configured with this port. */
  ghost function Owner(want: map<string, TunnelConfig>, p: nat): TunnelConfig
    requires p in Ports(want)
  {
    var n :| n in want && want[n].remotePort == p; want[n]
  }

  /** The tunnel has arrived in the table and at the server. */
  ghost predicate Arrived(mine: map<nat, Told>, c: Client, want: map<string, TunnelConfig>, n: string)
    requires n in want
  {
    var t := want[n];
    && n in c.table && c.table[n] == Handle(t, t.remotePort) && t.remotePort in mine && mine[t.remotePort] == Telling(t)
    && t.remotePort in Ports(want) && Owner(want, t.remotePort) == t
  }

  lemma ArrivedAt(mine: map<nat, Told>, want: map<string, TunnelConfig>, c: Client, n: string)
    requires Creating(mine, want, c) && c.pending == map[] && n in want && OwnPort(want, n)
    ensures Arrived(mine, c, want, n)
  {
    assert OnItsWay(mine, c, n, want[n]);
    assert want[n].remotePort in Ports(want);
  }

  lemma ServerHasTheConfiguration(mine: map<nat, Told>, want: map<string, TunnelConfig>, c: Client)
    requires mine.Keys <= Ports(want) && forall n :: n in want ==> Arrived(mine, c, want, n)
    ensures mine == (map p | p in Ports(want) :: Telling(Owner(want, p)))
  {
    forall p | p in Ports(want) ensures p in mine && mine[p] == Telling(Owner(want, p)) {
      var n :| n in want && want[n].remotePort == p;
      assert Arrived(mine, c, want, n);
    }
  }

  lemma TableIsSynced(mine: map<nat, Told>, want: map<string, TunnelConfig>, c: Client)
    requires mine.Keys <= Ports(want) && c.table.Keys <= want.Keys && Named(want)
    requires forall n :: n in want ==> Arrived(mine, c, want, n) && OwnPort(want, n)
    ensures Configs(c.table) == want && Synced(mine, c.table)
  {
    forall n, m | n in c.table && m in c.table && c.table[n].port == c.table[m].port ensures n == m {
      assert Arrived(mine, c, want, n) && Arrived(mine, c, want, m) && OwnPort(want, n);
    }
    forall p | p in mine ensures exists n :: n in c.table && c.table[n].port == p {
      var n :| n in want && want[n].remotePort == p;
      assert Arrived(mine, c, want, n);
    }
    forall n | n in want ensures n in c.table && c.table[n].tunnel == want[n] {
      assert Arrived(mine, c, want, n);
    }
  }

  /** When all is done, table and server are the configuration, and in step. */
  lemma EndIsTheConfiguration(lim: Limits, mine: map<nat, Told>, want: map<string, TunnelConfig>, c: Client)
    requires Going(mine, want, c) && Finished(c) && Grantable(lim, want)
    ensures mine == (map p | p in Ports(want) :: Telling(Owner(want, p)))
    ensures Configs(c.table) == want && Synced(mine, c.table)
  {
    if Sweeping(mine, want, c) {
      StartCreating(lim, mine, want, c);
      NothingToLaunch(c);
    }
    forall n | n in want ensures Arrived(mine, c, want, n) {
      ArrivedAt(mine, want, c, n);
    }
    ServerHasTheConfiguration(mine, want, c);
    TableIsSynced(mine, want, c);
  }

  // ---------- the work left ----------

  function StepsLeft(c: Creation): nat {
    match c
    case Asking(_) => 3
    case Storing(_, _) => 2
    case Informing(_, _) => 1
  }

  /** The steps that the creation of this tunnel, once started, has still to make. */
  function TurnsLeft(c: Client, n: string): nat {
    if n in c.pending then StepsLeft(c.pending[n]) else 0
  }

  /** The steps that the sweep has still to make: two cancels per handle, and the start of the creations. */
  function SweepsLeft(c: Client): nat {
    if c.todo == [] && c.launch == map[] then 0
    else 2 * |c.todo| + 1 - if c.half && c.todo != [] then 1 else 0
  }
}
