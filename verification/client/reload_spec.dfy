/**
 The reconciliation that ReloadTunnels of pkg/client/client.go performs, stated on values: which tunnels a configuration
 asks for, which of the live ones it keeps, which it cancels and which it creates.
 */
module ReloadSpec {
  datatype TunnelConfig = TunnelConfig(name: string, localIP: string, localPort: int, remotePort: nat, timeout: int)

  /** The part of ClientConfig that Validate and ReloadTunnels look at. */
  datatype ClientConfig = ClientConfig(serverAddr: string, serverPort: int, token: string, tunnels: seq<TunnelConfig>) {
    predicate Valid() {
      && serverAddr != "" && serverPort != 0 && token != ""
      && forall i :: 0 <= i < |tunnels| ==>
           tunnels[i].name != "" && tunnels[i].localIP != "" && tunnels[i].localPort != 0
    }
  }

  /** The four fields that decide whether a live tunnel may stay. */
  predicate SameFields(a: TunnelConfig, b: TunnelConfig) {
    a.localIP == b.localIP && a.localPort == b.localPort && a.remotePort == b.remotePort && a.timeout == b.timeout
  }

  /** The tunnels by name; of two with one name the later wins. */
  function Wanted(ts: seq<TunnelConfig>): map<string, TunnelConfig> {
    if |ts| == 0 then map[] else Wanted(ts[..|ts| - 1])[ts[|ts| - 1].name := ts[|ts| - 1]]
  }

  lemma {:induction false} LastOneWins(ts: seq<TunnelConfig>, n: string)
    ensures n in Wanted(ts) <==> exists i :: 0 <= i < |ts| && ts[i].name == n
    ensures n in Wanted(ts) ==>
      exists i ::
        && 0 <= i < |ts| && ts[i] == Wanted(ts)[n] && ts[i].name == n
        && forall j :: i < j < |ts| ==> ts[j].name != n
  {
    if |ts| > 0 {
      var last := |ts| - 1;
      LastOneWins(ts[..last], n);
      if ts[last].name != n && n in Wanted(ts[..last]) {
        var i :| 0 <= i < last && ts[..last][i] == Wanted(ts)[n] && ts[..last][i].name == n
                 && forall j :: i < j < last ==> ts[..last][j].name != n;
        assert ts[i] == Wanted(ts)[n] && forall j :: i < j < last ==> ts[j].name != n by {
          forall j | i < j < last ensures ts[j].name != n {
            assert ts[..last][j] == ts[j];
          }
        }
      }
    }
  }

  /** The live tunnels, by name, that a reload leaves alone. */
  function Kept(live: map<string, TunnelConfig>, want: map<string, TunnelConfig>): set<string> {
    set n | n in live && n in want && SameFields(live[n], want[n])
  }

  function Cancelled(live: map<string, TunnelConfig>, want: map<string, TunnelConfig>): set<string> {
    live.Keys - Kept(live, want)
  }

  function Created(live: map<string, TunnelConfig>, want: map<string, TunnelConfig>): map<string, TunnelConfig> {
    want - Kept(live, want)
  }

  /** Every name stands for its own tunnel, as in both tables of the client. */
  ghost predicate Named(m: map<string, TunnelConfig>) {
    forall n :: n in m ==> m[n].name == n
  }

  lemma {:induction false} WantedIsNamed(ts: seq<TunnelConfig>)
    ensures Named(Wanted(ts))
  {
    if |ts| > 0 {
      WantedIsNamed(ts[..|ts| - 1]);
    }
  }

  /** The table once every creation has stored its handle. */
  function Settled(live: map<string, TunnelConfig>, want: map<string, TunnelConfig>): map<string, TunnelConfig> {
    (map n | n in Kept(live, want) :: live[n]) + Created(live, want)
  }

  lemma KeptAndCreated(live: map<string, TunnelConfig>, want: map<string, TunnelConfig>)
    ensures live - Cancelled(live, want) + Created(live, want) == Settled(live, want)
    ensures (live - Cancelled(live, want)).Keys == Kept(live, want) && Kept(live, want) !! Created(live, want).Keys
  {
  }

  /**
   Reconciliation: once all creations have succeeded the table is exactly the configuration; the cancelled names are
   exactly those that went or changed; and reloading the same configuration again cancels and creates nothing.
   */
  lemma ReloadReconciles(live: map<string, TunnelConfig>, ts: seq<TunnelConfig>)
    requires Named(live)
    ensures var want := Wanted(ts);
      && Settled(live, want) == want
      && (forall n :: n in Cancelled(live, want) <==> n in live && (n in want ==> live[n] != want[n]))
      && Cancelled(Settled(live, want), want) == {} && Created(Settled(live, want), want) == map[]
  {
    WantedIsNamed(ts);
    var want := Wanted(ts);
    forall n | n in live && n in want ensures SameFields(live[n], want[n]) <==> live[n] == want[n] {
      assert live[n].name == n && want[n].name == n;
    }
    assert Settled(live, want) == want;
  }

  /** A reload is quiet exactly when the table already is the configuration. */
  lemma QuietIffSettled(live: map<string, TunnelConfig>, ts: seq<TunnelConfig>)
    requires Named(live)
    ensures var want := Wanted(ts); (Cancelled(live, want) == {} && Created(live, want) == map[]) <==> live == want
  {
    var want := Wanted(ts);
    ReloadReconciles(live, ts);
    if Cancelled(live, want) == {} && Created(live, want) == map[] {
      assert live.Keys == Kept(live, want);
      forall n | n in want ensures n in live && live[n] == want[n] {
        assert n !in Created(live, want) && n !in Cancelled(live, want);
      }
      assert live == want;
    }
  }
}
