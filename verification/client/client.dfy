/**
 ReloadTunnels and createTunnel of pkg/client/client.go as they are written: the live table is updated while it is
 ranged over, handles are objects, and the new configuration's map loses the entries that may stay. The requests sent
 and the goroutines started are what the methods return.
 */
module Clients {
  import opened Basics
  import opened Options
  import ReloadClient
  import opened ReloadSpec

  class TunnelHandle {
    const tunnel: TunnelConfig
    const actualPort: nat
    var active: bool
    var listening: bool

    constructor (tunnel: TunnelConfig, actualPort: nat)
      ensures this.tunnel == tunnel && this.actualPort == actualPort && active && listening
    {
      this.tunnel, this.actualPort, this.active, this.listening := tunnel, actualPort, true, true;
    }
  }

  /** The table with the values of its handles, as the machine of a reload has it. */
  function Handles(table: map<string, TunnelHandle>): map<string, ReloadClient.Handle> {
    map n | n in table :: ReloadClient.Handle(table[n].tunnel, table[n].actualPort)
  }

  function CancelRequests(table: map<string, TunnelHandle>, names: seq<string>): seq<nat>
    requires forall n :: n in names ==> n in table
  {
    ReloadClient.CancelRequests(Handles(table), names)
  }

  function Configs(table: map<string, TunnelHandle>): map<string, TunnelConfig> {
    ReloadClient.Configs(Handles(table))
  }

  class Client {
    var cfg: ClientConfig
    var tunnels: map<string, TunnelHandle>

    constructor (cfg: ClientConfig)
      ensures Valid() && this.cfg == cfg && tunnels == map[]
    {
      this.cfg, this.tunnels := cfg, map[];
    }

    ghost predicate Valid()
      reads this
    {
      forall n :: n in tunnels ==> tunnels[n].tunnel.name == n
    }

    ghost function Live(): map<string, TunnelConfig>
      reads this
    {
      Configs(tunnels)
    }

    /** What the reload does to the object of a live tunnel. */
    twostate predicate HandleAfter(h: TunnelHandle, dropped: bool)
      reads h
    {
      if dropped then !h.active && !h.listening
      else h.active == old(h.active) && h.listening == old(h.listening)
    }

    /** The callback of Range: a tunnel that went or changed is dropped, one that stays leaves the new tunnels. */
    method Visit(name: string, newTunnels: map<string, TunnelConfig>)
      returns (rest: map<string, TunnelConfig>, sent: seq<nat>, ghost dropped: bool)
      requires name in tunnels
      modifies this`tunnels, tunnels[name]
      ensures dropped <==> !(name in newTunnels && SameFields(old(tunnels)[name].tunnel, newTunnels[name]))
      ensures rest == if dropped then newTunnels else newTunnels - {name}
      ensures tunnels == if dropped then old(tunnels) - {name} else old(tunnels)
      ensures sent == if dropped then [old(tunnels)[name].actualPort, old(tunnels)[name].actualPort] else []
      ensures HandleAfter(old(tunnels)[name], dropped)
    {
      var handle := tunnels[name];
      if name !in newTunnels || !SameFields(handle.tunnel, newTunnels[name]) {
        handle.active := false;
        sent := [handle.actualPort];
        handle.listening := false;
        sent := sent + [handle.actualPort];
        tunnels := tunnels - {name};
        return newTunnels, sent, true;
      }
      return newTunnels - {name}, [], false;
    }

    /** The first loop: the tunnels of the configuration by name. */
    method ByName(ts: seq<TunnelConfig>) returns (newTunnels: map<string, TunnelConfig>)
      ensures newTunnels == Wanted(ts)
    {
      newTunnels := map[];
      for i := 0 to |ts|
        invariant newTunnels == Wanted(ts[..i])
      {
        newTunnels := newTunnels[ts[i].name := ts[i]];
        assert ts[..i + 1][..i] == ts[..i];
      }
      assert ts[..|ts|] == ts;
    }

    /** The third loop: a createTunnel goroutine for each new tunnel, in the order of the range. */
    method Launch(newTunnels: map<string, TunnelConfig>) returns (launched: seq<TunnelConfig>)
      requires Named(newTunnels)
      ensures Lists(launched, newTunnels.Values)
    {
      launched := [];
      var todo := newTunnels.Keys;
      while todo != {}
        invariant todo <= newTunnels.Keys
        invariant forall t :: t in launched <==> t.name in newTunnels && t.name !in todo && newTunnels[t.name] == t
        invariant forall i, j :: 0 <= i < j < |launched| ==> launched[i] != launched[j]
        decreases |todo|
      {
        var name :| name in todo;
        todo := todo - {name};
        assert newTunnels[name] !in launched;
        launched := launched + [newTunnels[name]];
      }
    }

    /** One round of the second loop. */
    method Round(ghost table: map<string, TunnelHandle>, ghost want: map<string, TunnelConfig>, ghost todo: set<string>,
                 ghost gone: seq<string>, name: string, newTunnels: map<string, TunnelConfig>, before: seq<nat>)
      returns (rest: map<string, TunnelConfig>, sent: seq<nat>, ghost gone': seq<string>)
      requires name in todo && Swept(table, want, todo, tunnels, newTunnels, gone)
      requires (forall n :: n in gone ==> n in table) && before == CancelRequests(table, gone)
      modifies this`tunnels, set n | n in table && n == name :: table[n]
      ensures Swept(table, want, todo - {name}, tunnels, rest, gone')
      ensures forall n :: n != name ==> (n in gone' <==> n in gone)
      ensures (forall n :: n in gone' ==> n in table) && sent == CancelRequests(table, gone')
      ensures name in table && HandleAfter(table[name], name in gone')
    {
      SweptOneMore(table, want, todo, name, tunnels, newTunnels, gone);
      assert name !in gone && gone + [] == gone;
      ghost var dropped;
      rest, sent, dropped := Visit(name, newTunnels);
      sent := before + sent;
      gone' := gone + if dropped then [name] else [];
      if dropped {
        RequestsOneMore(table, gone, name);
      }
    }

    /**
     The second loop: Range over the live table, dropping what went or changed, and taking what stays out of the new
     tunnels. `gone` lists the dropped names in the order of the range.
     */
    method Sweep(want: map<string, TunnelConfig>)
      returns (newTunnels: map<string, TunnelConfig>, sent: seq<nat>, ghost gone: seq<string>)
      requires Valid()
      modifies this`tunnels, tunnels.Values
      ensures Swept(old(tunnels), want, {}, tunnels, newTunnels, gone)
      ensures (forall n :: n in gone ==> n in old(tunnels)) && sent == CancelRequests(old(tunnels), gone)
      ensures forall n :: n in old(tunnels) ==> HandleAfter(old(tunnels)[n], n in gone)
    {
      ghost var table := tunnels;
      newTunnels, sent, gone := want, [], [];
      var todo := tunnels.Keys;
      SweptNone(table, want);
      while todo != {}
        invariant Swept(table, want, todo, tunnels, newTunnels, gone)
        invariant (forall n :: n in gone ==> n in table) && sent == CancelRequests(table, gone)
        invariant forall n :: n in table ==> HandleAfter(table[n], n in gone)
        decreases |todo|
      {
        var name :| name in todo;
        newTunnels, sent, gone := Round(table, want, todo, gone, name, newTunnels, sent);
        todo := todo - {name};
      }
    }

    /** The three loops of ReloadTunnels. */
    method Reconcile(ts: seq<TunnelConfig>)
      returns (sent: seq<nat>, launched: seq<TunnelConfig>, ghost gone: seq<string>)
      requires Valid()
      modifies this`tunnels, tunnels.Values
      ensures Reconciles(old(tunnels), ts, tunnels, gone, sent, launched) && SentTwice(old(tunnels), gone, sent)
      ensures forall n :: n in old(tunnels) ==> HandleAfter(old(tunnels)[n], n in gone)
    {
      ghost var table := tunnels;
      var newTunnels := ByName(ts);
      newTunnels, sent, gone := Sweep(newTunnels);
      SweptIsNamed(table, ts, tunnels, newTunnels, gone);
      launched := Launch(newTunnels);
      MovesMade(table, ts, tunnels, newTunnels, gone, sent, launched);
      EachTwice(table, gone);
    }

    /** ReloadTunnels; `loaded` is the configuration file, if it can be read and parsed. */
    method ReloadTunnels(loaded: Option<ClientConfig>)
      returns (sent: seq<nat>, launched: seq<TunnelConfig>, ghost gone: seq<string>)
      requires Valid()
      modifies this, tunnels.Values
      ensures Valid()
      ensures
        if loaded.None? || loaded.value.serverAddr == "" || loaded.value.serverPort == 0 || loaded.value.token == ""
           || (exists i :: 0 <= i < |loaded.value.tunnels| && var t := loaded.value.tunnels[i];
                 t.name == "" || t.localIP == "" || t.localPort == 0)
        then cfg == old(cfg) && tunnels == old(tunnels) && sent == [] && launched == [] && gone == []
        else
          && cfg == loaded.value
          && Reconciles(old(tunnels), loaded.value.tunnels, tunnels, gone, sent, launched)
      ensures SentTwice(old(tunnels), gone, sent)
      ensures forall n :: n in old(tunnels) ==> HandleAfter(old(tunnels)[n], n in gone)
    {
      sent, launched, gone := [], [], [];
      if loaded.None? || !loaded.value.Valid() {
        return;
      }
      sent, launched, gone := Reconcile(loaded.value.tunnels);
      StillNamed(old(tunnels), loaded.value.tunnels, tunnels, gone, sent, launched);
      cfg := loaded.value;
    }

    /** createTunnel up to its accept loop; `granted` is the port the server bound, if it did. */
    method CreateTunnel(tunnel: TunnelConfig, granted: Option<nat>)
      requires Valid()
      modifies `tunnels
      ensures Valid()
      ensures granted.None? ==> tunnels == old(tunnels)
      ensures granted.Some? ==> tunnel.name in tunnels && tunnels == old(tunnels)[tunnel.name := tunnels[tunnel.name]]
      ensures granted.Some? ==>
        var h := tunnels[tunnel.name];
        fresh(h) && h.tunnel == tunnel && h.actualPort == granted.value && h.active && h.listening
      ensures granted.Some? ==> Live() == old(Live())[tunnel.name := tunnel]
      ensures granted.Some? ==>
        Handles(tunnels) == Handles(old(tunnels))[tunnel.name := ReloadClient.Handle(tunnel, granted.value)]
    {
      if granted.None? {
        return;
      }
      var handle := new TunnelHandle(tunnel, granted.value);
      tunnels := tunnels[tunnel.name := handle];
    }

    /** The creations of a reload, all granted, in the order in which they finish. */
    method CreateAll(launched: seq<TunnelConfig>, portOf: string -> nat)
      requires Valid()
      modifies `tunnels
      ensures Valid()
      ensures Live() == old(Live()) + Wanted(launched)
      ensures forall n :: n in tunnels ==>
        if n in Wanted(launched) then fresh(tunnels[n]) && tunnels[n].active && tunnels[n].listening
        else n in old(tunnels) && tunnels[n] == old(tunnels)[n]
    {
      ghost var made: set<TunnelHandle> := {};
      for i := 0 to |launched|
        invariant Valid() && Stored(old(tunnels), launched[..i], tunnels, made)
        invariant forall h :: h in made ==> fresh(h) && h.active && h.listening
      {
        ghost var before := tunnels;
        CreateTunnel(launched[i], Some(portOf(launched[i].name)));
        StoredOneMore(old(tunnels), launched, i, before, made, tunnels[launched[i].name]);
        made := made + {tunnels[launched[i].name]};
      }
      assert launched[..|launched|] == launched;
      StoredAll(old(tunnels), launched, tunnels, made);
    }

    /** The table in mid-reload: what stays is untouched, and the goroutines ask for what is missing. */
    method Reload(config: ClientConfig) returns (launched: seq<TunnelConfig>)
      requires Valid() && config.Valid()
      modifies this, tunnels.Values
      ensures Valid() && cfg == config
      ensures var want := Wanted(config.tunnels);
        Live() + Wanted(launched) == want && Live().Keys !! Wanted(launched).Keys
      ensures Live().Keys == Kept(old(Live()), Wanted(config.tunnels))
      ensures forall n :: n in tunnels ==>
        n in old(tunnels) && tunnels[n] == old(tunnels)[n] && HandleAfter(tunnels[n], false)
    {
      var sent;
      ghost var gone;
      sent, launched, gone := ReloadTunnels(Some(config));
      ReconciledTable(old(tunnels), config.tunnels, tunnels, gone, sent, launched);
    }

    /** A reload whose creations all succeed leaves exactly the configured tunnels, the unchanged ones untouched. */
    method ReloadAndCreate(config: ClientConfig, portOf: string -> nat)
      requires Valid() && config.Valid()
      modifies this, tunnels.Values
      ensures Valid() && cfg == config && Live() == Wanted(config.tunnels)
      ensures forall n :: n in Kept(old(Live()), Wanted(config.tunnels)) ==>
        n in tunnels && tunnels[n] == old(tunnels)[n] && HandleAfter(tunnels[n], false)
      ensures fresh(tunnels.Values - old(tunnels).Values)
    {
      var launched := Reload(config);
      assert tunnels.Values <= old(tunnels).Values;
      CreateAll(launched, portOf);
    }

    /** Done a second time it sends nothing, creates nothing and changes nothing. */
    method ReloadTwice(config: ClientConfig, portOf: string -> nat)
      returns (sent: seq<nat>, launched: seq<TunnelConfig>)
      requires Valid() && config.Valid()
      modifies this, tunnels.Values
      ensures Valid() && Live() == Wanted(config.tunnels)
      ensures sent == [] && launched == []
    {
      ReloadAndCreate(config, portOf);
      ghost var gone, before := [], tunnels;
      sent, launched, gone := ReloadTunnels(Some(config));
      NothingToReconcile(before, config.tunnels, tunnels, gone, sent, launched);
    }
  }

  lemma FirstIsListed<T(!new)>(s: seq<T>, members: set<T>)
    requires Lists(s, members)
    ensures |s| > 0 ==> s[0] in members
  {
  }

  /** The goroutines started for a map of tunnels, in any order, ask for that map. */
  lemma WantedOfListed(ts: seq<TunnelConfig>, m: map<string, TunnelConfig>)
    requires Named(m) && Lists(ts, m.Values)
    ensures Wanted(ts) == m
  {
    forall n
      ensures n in Wanted(ts) <==> n in m
      ensures n in m ==> Wanted(ts)[n] == m[n]
    {
      LastOneWins(ts, n);
      WantedIsNamed(ts);
      if n in m {
        assert m[n] in m.Values;
        var i :| 0 <= i < |ts| && ts[i] == m[n];
      }
      if n in Wanted(ts) {
        assert Wanted(ts)[n] in ts && Wanted(ts)[n] in m.Values;
      }
    }
  }

  lemma RequestsOneMore(table: map<string, TunnelHandle>, names: seq<string>, n: string)
    requires n in table && forall m :: m in names ==> m in table
    ensures CancelRequests(table, names + [n])
         == CancelRequests(table, names) + [table[n].actualPort, table[n].actualPort]
  {
    assert (names + [n])[..|names|] == names;
  }

  ghost predicate Stays(table: map<string, TunnelHandle>, want: map<string, TunnelConfig>, n: string) {
    n in table && n in want && SameFields(table[n].tunnel, want[n])
  }

  /** How far the second loop has come when `todo` is still to be visited. */
  ghost predicate Swept(table: map<string, TunnelHandle>, want: map<string, TunnelConfig>, todo: set<string>,
                        tunnels: map<string, TunnelHandle>, newTunnels: map<string, TunnelConfig>, gone: seq<string>)
  {
    && todo <= table.Keys
    && tunnels == (map n | n in table && (n in todo || Stays(table, want, n)) :: table[n])
    && newTunnels == (map n | n in want && (n in todo || !Stays(table, want, n)) :: want[n])
    && Lists(gone, set n | n in table && n !in todo && !Stays(table, want, n))
  }

  lemma SweptNone(table: map<string, TunnelHandle>, want: map<string, TunnelConfig>)
    ensures Swept(table, want, table.Keys, table, want, [])
  {
  }

  lemma SweptOneMore(table: map<string, TunnelHandle>, want: map<string, TunnelConfig>, todo: set<string>, name: string,
                     tunnels: map<string, TunnelHandle>, newTunnels: map<string, TunnelConfig>, gone: seq<string>)
    requires name in todo && Swept(table, want, todo, tunnels, newTunnels, gone)
    ensures name in tunnels && tunnels[name] == table[name] && forall n :: n in gone ==> n in table
    ensures Stays(table, want, name) <==> name in newTunnels && SameFields(tunnels[name].tunnel, newTunnels[name])
    ensures if Stays(table, want, name) then Swept(table, want, todo - {name}, tunnels, newTunnels - {name}, gone)
            else Swept(table, want, todo - {name}, tunnels - {name}, newTunnels, gone + [name])
  {
    var before := set n | n in table && n !in todo && !Stays(table, want, n);
    var after := set n | n in table && n !in todo - {name} && !Stays(table, want, n);
    if Stays(table, want, name) {
      assert after == before;
    } else {
      assert after == before + {name};
      assert forall n :: n in gone + [name] <==> n in gone || n == name;
    }
  }

  /** The handles for these tunnels have been stored over a table; `made` are the new handles. */
  ghost predicate Stored(table: map<string, TunnelHandle>, ts: seq<TunnelConfig>,
                         tunnels: map<string, TunnelHandle>, made: set<TunnelHandle>)
  {
    && tunnels.Keys == table.Keys + Wanted(ts).Keys
    && forall n :: n in tunnels ==>
         if n in Wanted(ts) then tunnels[n].tunnel == Wanted(ts)[n] && tunnels[n] in made
         else tunnels[n] == table[n]
  }

  lemma StoredAll(table: map<string, TunnelHandle>, ts: seq<TunnelConfig>,
                  tunnels: map<string, TunnelHandle>, made: set<TunnelHandle>)
    requires Stored(table, ts, tunnels, made)
    ensures Configs(tunnels) == Configs(table) + Wanted(ts)
  {
  }

  lemma StoredOneMore(table: map<string, TunnelHandle>, ts: seq<TunnelConfig>, i: nat,
                      tunnels: map<string, TunnelHandle>, made: set<TunnelHandle>, h: TunnelHandle)
    requires i < |ts| && Stored(table, ts[..i], tunnels, made) && h.tunnel == ts[i]
    ensures Stored(table, ts[..i + 1], tunnels[ts[i].name := h], made + {h})
  {
    assert ts[..i + 1][..i] == ts[..i];
  }

  lemma SweptAll(table: map<string, TunnelHandle>, live: map<string, TunnelConfig>, want: map<string, TunnelConfig>,
                 tunnels: map<string, TunnelHandle>, newTunnels: map<string, TunnelConfig>, gone: seq<string>)
    requires live == Configs(table)
    requires Swept(table, want, {}, tunnels, newTunnels, gone)
    ensures newTunnels == Created(live, want)
    ensures tunnels == table - Cancelled(live, want) && Configs(tunnels) == live - Cancelled(live, want)
    ensures Lists(gone, Cancelled(live, want))
  {
    assert Cancelled(live, want) == set n | n in table && !Stays(table, want, n);
  }
  lemma SweptIsNamed(table: map<string, TunnelHandle>, ts: seq<TunnelConfig>,
                     tunnels: map<string, TunnelHandle>, newTunnels: map<string, TunnelConfig>, gone: seq<string>)
    requires Swept(table, Wanted(ts), {}, tunnels, newTunnels, gone)
    ensures Named(newTunnels)
  {
    WantedIsNamed(ts);
  }

  /**
   From this table, the sweep of the reload machine, cancelling in the order of `gone`, sends these requests one by one,
   leaves that table, and starts a creation for each of the launched tunnels.
   */
  ghost predicate MadeTheMoves(table: map<string, ReloadClient.Handle>, want: map<string, TunnelConfig>,
                               gone: seq<string>, table': map<string, ReloadClient.Handle>,
                               sent: seq<nat>, launched: seq<TunnelConfig>)
  {
    ReloadClient.SweepRun(ReloadClient.Begin(table, want, gone), 2 * |gone| + 1)
    == (ReloadClient.Client(table', [], false, map[], ReloadClient.AskingFor(Wanted(launched))), sent)
  }

  /**
   What ReloadTunnels amounts to: exactly the handles that went or changed are gone, in some order, and their cancel
   requests sent; exactly the missing tunnels are asked for, in some order; and these are moves of the reload machine.
   */
  ghost predicate Reconciles(table: map<string, TunnelHandle>, ts: seq<TunnelConfig>,
                             tunnels: map<string, TunnelHandle>, gone: seq<string>, sent: seq<nat>,
                             launched: seq<TunnelConfig>)
  {
    var live, want := Configs(table), Wanted(ts);
    && tunnels == table - Cancelled(live, want) && Configs(tunnels) == live - Cancelled(live, want)
    && Lists(gone, Cancelled(live, want)) && Lists(launched, Created(live, want).Values)
    && (forall n :: n in gone ==> n in table) && sent == CancelRequests(table, gone)
    && MadeTheMoves(Handles(table), want, gone, Handles(tunnels), sent, launched)
  }

  lemma SweptMoves(table: map<string, TunnelHandle>, ts: seq<TunnelConfig>, tunnels: map<string, TunnelHandle>,
                   gone: seq<string>, launched: seq<TunnelConfig>)
    requires var live, want := Configs(table), Wanted(ts);
      && tunnels == table - Cancelled(live, want)
      && Lists(gone, Cancelled(live, want)) && Lists(launched, Created(live, want).Values)
    ensures forall n :: n in gone ==> n in table
    ensures MadeTheMoves(Handles(table), Wanted(ts), gone, Handles(tunnels), CancelRequests(table, gone), launched)
  {
    var live, want := Configs(table), Wanted(ts);
    WantedIsNamed(ts);
    WantedOfListed(launched, Created(live, want));
    ReloadClient.SweepIsReload(Handles(table), want, gone);
    assert Handles(tunnels) == Handles(table) - Cancelled(live, want);
  }

  lemma MovesMade(table: map<string, TunnelHandle>, ts: seq<TunnelConfig>, tunnels: map<string, TunnelHandle>,
                  newTunnels: map<string, TunnelConfig>, gone: seq<string>, sent: seq<nat>,
                  launched: seq<TunnelConfig>)
    requires Swept(table, Wanted(ts), {}, tunnels, newTunnels, gone) && Lists(launched, newTunnels.Values)
    requires (forall n :: n in gone ==> n in table) && sent == CancelRequests(table, gone)
    ensures Reconciles(table, ts, tunnels, gone, sent, launched)
  {
    SweptAll(table, Configs(table), Wanted(ts), tunnels, newTunnels, gone);
    SweptMoves(table, ts, tunnels, gone, launched);
  }

  /** Two requests for each handle that is gone, both with its port, in the order of `gone`. */
  ghost predicate SentTwice(table: map<string, TunnelHandle>, gone: seq<string>, sent: seq<nat>) {
    && |sent| == 2 * |gone|
    && forall k :: 0 <= k < |gone| ==>
         && gone[k] in table
         && sent[2 * k] == table[gone[k]].actualPort && sent[2 * k + 1] == table[gone[k]].actualPort
  }

  lemma EachTwice(table: map<string, TunnelHandle>, gone: seq<string>)
    requires forall n :: n in gone ==> n in table
    ensures SentTwice(table, gone, CancelRequests(table, gone))
  {
    ReloadClient.RequestsAt(Handles(table), gone);
    forall k | 0 <= k < |gone| ensures Handles(table)[gone[k]].port == table[gone[k]].actualPort {
      assert gone[k] in table;
    }
  }

  lemma StillNamed(table: map<string, TunnelHandle>, ts: seq<TunnelConfig>, tunnels: map<string, TunnelHandle>,
                   gone: seq<string>, sent: seq<nat>, launched: seq<TunnelConfig>)
    requires Reconciles(table, ts, tunnels, gone, sent, launched)
    requires forall n :: n in table ==> table[n].tunnel.name == n
    ensures forall n :: n in tunnels ==> tunnels[n].tunnel.name == n
  {
  }

  /** What stays and what is asked for is the configuration. */
  lemma ReconciledTable(table: map<string, TunnelHandle>, ts: seq<TunnelConfig>, tunnels: map<string, TunnelHandle>,
                        gone: seq<string>, sent: seq<nat>, launched: seq<TunnelConfig>)
    requires Reconciles(table, ts, tunnels, gone, sent, launched)
    requires forall n :: n in table ==> table[n].tunnel.name == n
    ensures var live, want := Configs(table), Wanted(ts);
      && Configs(tunnels) + Wanted(launched) == want && tunnels.Keys !! Wanted(launched).Keys
      && tunnels.Keys == Kept(live, want)
    ensures forall n :: n in tunnels ==> n in table && tunnels[n] == table[n] && n !in gone
  {
    var live, want := Configs(table), Wanted(ts);
    ReloadReconciles(live, ts);
    WantedIsNamed(ts);
    WantedOfListed(launched, Created(live, want));
    KeptAndCreated(live, want);
  }

  lemma NothingToReconcile(table: map<string, TunnelHandle>, ts: seq<TunnelConfig>, tunnels: map<string, TunnelHandle>,
                           gone: seq<string>, sent: seq<nat>, launched: seq<TunnelConfig>)
    requires Reconciles(table, ts, tunnels, gone, sent, launched) && Configs(table) == Wanted(ts)
    ensures tunnels == table && sent == [] && launched == []
  {
    WantedIsNamed(ts);
    QuietIffSettled(Configs(table), ts);
    FirstIsListed(gone, {});
    FirstIsListed(launched, {});
  }
}
