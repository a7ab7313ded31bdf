/**
 The two lookups of a user connection taken apart: the accept loop of pkg/server/server.go finds the tunnel in its
 session's map and takes a permit, and the handler goroutine looks the port up once more, later, to know what to release
 in the end. A cancel, with or without a new forward of the same port, may come in between. Slots are conserved exactly
 when none does.
 */
module Lookups {
  import opened Options
  import opened SessionsSpec
  import opened SessionsLaws

  /** A handler before its lookup: the session and port it serves, and the tunnel whose permit was taken for it. */
  datatype Entering<T> = Entering(cid: nat, port: nat, taken: T)

  /** `maps` are the Tunnels maps of all sessions there have been; one that has ended keeps its map. */
  datatype Full<T> = Full(base: State<T>, maps: map<nat, map<nat, T>>, entering: map<nat, Entering<T>>)

  datatype Move<T> = Base(event: Event<T>) | Admit(listener: T, uid: nat) | LookUp(uid: nat)

  ghost function Begin<T>(): Full<T> {
    Full(Initial(), map[], map[])
  }

  /** An event of SessionsSpec other than an arrival; session ids are never used again. */
  ghost function DoBase<T>(lim: Limits, s: Full<T>, e: Event<T>): Full<T> {
    if e.Arrive? || (e.Connect? && e.cid in s.maps) then s
    else
      var b := Step(lim, s.base, e).0;
      Full(b, s.maps + b.sessions, s.entering)
  }

  /** The listener may have been closed since the accept that this admission follows. */
  ghost predicate MayAdmit<T>(s: Full<T>, listener: T, uid: nat) {
    listener in s.base.tunnels && uid !in s.base.users && uid !in s.entering
  }

  ghost predicate Present<T>(s: Full<T>, cid: nat, port: nat) {
    cid in s.maps && port in s.maps[cid] && s.maps[cid][port] in s.base.tunnels
  }

  /** The accept loop's part: lookup, permit, count. */
  ghost function DoAdmit<T>(lim: Limits, s: Full<T>, listener: T, uid: nat): Full<T>
    requires MayAdmit(s, listener, uid)
  {
    var port, cid := s.base.tunnels[listener].port, s.base.tunnels[listener].owner;
    if !Present(s, cid, port) then s
    else
      var t := s.maps[cid][port];
      var r := s.base.tunnels[t];
      if r.held >= lim.maxConnsPerTunnel then s
      else
        var r' := r.(held := r.held + 1, activeConns := r.activeConns + 1);
        s.(base := s.base.(tunnels := s.base.tunnels[t := r']), entering := s.entering[uid := Entering(cid, port, t)])
  }

  /** The handler's part: without a tunnel under its port it returns and releases nothing. */
  ghost function DoLookUp<T>(s: Full<T>, uid: nat): Full<T>
    requires uid in s.entering
  {
    var e, rest := s.entering[uid], s.entering - {uid};
    if !Present(s, e.cid, e.port) then s.(entering := rest)
    else s.(base := s.base.(users := s.base.users[uid := User(s.maps[e.cid][e.port], false)]), entering := rest)
  }

  ghost function Next<T>(lim: Limits, s: Full<T>, m: Move<T>): Full<T> {
    match m
    case Base(e) => DoBase(lim, s, e)
    case Admit(l, uid) => if MayAdmit(s, l, uid) then DoAdmit(lim, s, l, uid) else s
    case LookUp(uid) => if uid in s.entering then DoLookUp(s, uid) else s
  }

  ghost function After<T>(lim: Limits, moves: seq<Move<T>>): Full<T> {
    if |moves| == 0 then Begin() else Next(lim, After(lim, moves[..|moves| - 1]), moves[|moves| - 1])
  }

  /** A cancel of a tunnel whose permit was taken for a handler that has not looked up yet. */
  ghost predicate Misses<T>(s: Full<T>, m: Move<T>) {
    && m.Base? && m.event.Cancel?
    && m.event.cid in s.base.sessions && m.event.port in s.base.sessions[m.event.cid]
    && exists u :: u in s.entering && s.entering[u].taken == s.base.sessions[m.event.cid][m.event.port]
  }

  /** No cancel of a tunnel falls between the two lookups of one of its handlers. */
  ghost predicate Clean<T>(lim: Limits, moves: seq<Move<T>>) {
    |moves| == 0 || (Clean(lim, moves[..|moves| - 1]) && !Misses(After(lim, moves[..|moves| - 1]), moves[|moves| - 1]))
  }

  // ---------- what every run keeps ----------

  /** The tunnel is the one that the map of its session holds under its port. */
  ghost predicate Current<T>(s: Full<T>, t: T)
    requires t in s.base.tunnels
  {
    var r := s.base.tunnels[t];
    r.owner in s.maps && r.port in s.maps[r.owner] && s.maps[r.owner][r.port] == t
  }

  ghost predicate MapsSound<T>(s: Full<T>) {
    && (forall c, p :: c in s.maps && p in s.maps[c] ==> s.maps[c][p] in s.base.tunnels)
    && (forall c, p :: c in s.maps && p in s.maps[c] ==>
          var r := s.base.tunnels[s.maps[c][p]]; r.port == p && r.owner == c)
    && (forall c :: c in s.base.sessions ==> c in s.maps && s.maps[c] == s.base.sessions[c])
    && s.base.starting !! s.maps.Keys
  }

  ghost predicate EnteringSound<T>(s: Full<T>) {
    && (forall u :: u in s.entering ==> s.entering[u].taken in s.base.tunnels)
    && (forall u :: u in s.entering ==>
          var r := s.base.tunnels[s.entering[u].taken]; r.owner == s.entering[u].cid && r.port == s.entering[u].port)
    && s.entering.Keys !! s.base.users.Keys
  }

  ghost predicate Sound<T>(lim: Limits, s: Full<T>) {
    Closed(s.base) && Owned(s.base) && Permits(lim, s.base) && MapsSound(s) && EnteringSound(s)
  }

  /** The handlers that wait for their lookup with a permit of this tunnel. */
  ghost function Waiting<T>(entering: map<nat, Entering<T>>, t: T): set<nat> {
    set u | u in entering && entering[u].taken == t
  }

  ghost predicate Balanced<T>(s: Full<T>, t: T)
    requires t in s.base.tunnels
  {
    s.base.tunnels[t].held == |InFlight(s.base.users, t)| + |Waiting(s.entering, t)|
  }

  /** The permits of this tunnel that no live handler will release. */
  ghost function Owed<T>(b: State<T>, t: T): int
    requires t in b.tunnels
  {
    b.tunnels[t].held - |InFlight(b.users, t)|
  }

  /**
   While no cancel has come between two lookups, permits balance and every waiting handler will find its tunnel. Once
   one has, some tunnel that is in no map any more is owed a permit for ever.
   */
  ghost predicate Tallied<T>(s: Full<T>, clean: bool) {
    && (forall t :: t in s.base.tunnels ==> s.base.tunnels[t].held == s.base.tunnels[t].activeConns)
    && if clean then
         && (forall t :: t in s.base.tunnels ==> Balanced(s, t))
         && (forall u :: u in s.entering && s.entering[u].taken in s.base.tunnels ==> Current(s, s.entering[u].taken))
       else exists t :: t in s.base.tunnels && !Current(s, t) && Owed(s.base, t) > 0
  }

  // ---------- events of SessionsSpec ----------

  lemma BaseIsSound<T>(lim: Limits, b: State<T>, e: Event<T>)
    requires Closed(b) && Owned(b) && Permits(lim, b)
    ensures var b' := Step(lim, b, e).0; Closed(b') && Owned(b') && Permits(lim, b')
  {
    ClosedKept(lim, b, e);
    OwnedKept(lim, b, e);
    PermitsKept(lim, b, e);
  }

  /** A tunnel object, once made, keeps its port and its owner. */
  lemma BaseKeepsTunnels<T>(lim: Limits, b: State<T>, e: Event<T>)
    requires Closed(b)
    ensures SameTunnels(b, Step(lim, b, e).0)
  {
  }

  /** The tunnel that a cancel takes out of its session's map. */
  ghost predicate Cancels<T>(b: State<T>, e: Event<T>, t: T) {
    e.Cancel? && e.cid in b.sessions && e.port in b.sessions[e.cid] && t == b.sessions[e.cid][e.port]
  }

  /** Tunnels leave the maps by a cancel and in no other way, and never come back. */
  ghost predicate Follows<T>(s: Full<T>, s': Full<T>, e: Event<T>) {
    && MapsSound(s')
    && forall t :: t in s.base.tunnels ==>
         t in s'.base.tunnels && (Current(s', t) <==> Current(s, t) && !Cancels(s.base, e, t))
  }

  lemma MapsUnchanged<T>(maps: map<nat, map<nat, T>>, sessions: map<nat, map<nat, T>>)
    requires forall c :: c in sessions ==> c in maps && maps[c] == sessions[c]
    ensures maps + sessions == maps
  {
  }

  /** Tunnels that were there keep port and owner. */
  ghost predicate SameTunnels<T>(b: State<T>, b': State<T>) {
    forall t :: t in b.tunnels ==>
      t in b'.tunnels && b'.tunnels[t].port == b.tunnels[t].port && b'.tunnels[t].owner == b.tunnels[t].owner
  }

  lemma EntryAdded<T>(s: Full<T>, s': Full<T>, cid: nat, p: nat, id: T)
    requires MapsSound(s) && SameTunnels(s.base, s'.base) && s'.base.starting == s.base.starting
    requires cid in s.base.sessions && p !in s.maps[cid] && id !in s.base.tunnels && id in s'.base.tunnels
    requires s'.base.tunnels[id].port == p && s'.base.tunnels[id].owner == cid
    requires s'.maps.Keys == s.maps.Keys && s'.maps[cid] == s.maps[cid][p := id]
    requires forall c :: c in s.maps && c != cid ==> s'.maps[c] == s.maps[c]
    requires forall c :: c in s'.base.sessions ==> c in s'.maps && s'.base.sessions[c] == s'.maps[c]
    ensures MapsSound(s') && forall t :: t in s.base.tunnels ==> (Current(s', t) <==> Current(s, t))
  {
  }

  lemma ForwardMaps<T>(lim: Limits, s: Full<T>, e: Event<T>, p: nat)
    requires Closed(s.base) && Owned(s.base) && MapsSound(s) && e.Forward? && Enabled(s.base, e)
    requires Grant(lim, s.base, e.cid, e.port, e.choice, e.able) == Some(p)
    ensures var s' := DoBase(lim, s, e);
      && p !in s.maps[e.cid] && s'.base.starting == s.base.starting
      && e.id in s'.base.tunnels && s'.base.tunnels[e.id].port == p && s'.base.tunnels[e.id].owner == e.cid
      && s'.maps.Keys == s.maps.Keys && s'.maps[e.cid] == s.maps[e.cid][p := e.id]
      && (forall c :: c in s.maps && c != e.cid ==> s'.maps[c] == s.maps[c])
      && (forall c :: c in s'.base.sessions ==> c in s'.maps && s'.base.sessions[c] == s'.maps[c])
  {
    var s' := DoBase(lim, s, e);
    BoundIsHeld(s.base, p);
    assert s'.base == AddTunnel(s.base, e.cid, e.addr, p, e.id);
    assert s'.maps == s.maps[e.cid := s'.base.sessions[e.cid]];
  }

  lemma ForwardFollows<T>(lim: Limits, s: Full<T>, e: Event<T>)
    requires Closed(s.base) && Owned(s.base) && MapsSound(s) && e.Forward? && Enabled(s.base, e)
    ensures Follows(s, DoBase(lim, s, e), e)
  {
    var p := Grant(lim, s.base, e.cid, e.port, e.choice, e.able);
    if p.Some? {
      ForwardMaps(lim, s, e, p.value);
      BaseKeepsTunnels(lim, s.base, e);
      EntryAdded(s, DoBase(lim, s, e), e.cid, p.value, e.id);
    } else {
      MapsUnchanged(s.maps, s.base.sessions);
    }
  }

  lemma EntryRemoved<T>(s: Full<T>, s': Full<T>, cid: nat, port: nat)
    requires MapsSound(s) && SameTunnels(s.base, s'.base) && s'.base.starting == s.base.starting
    requires cid in s.base.sessions
    requires s'.maps.Keys == s.maps.Keys && s'.maps[cid] == s.maps[cid] - {port}
    requires forall c :: c in s.maps && c != cid ==> s'.maps[c] == s.maps[c]
    requires forall c :: c in s'.base.sessions ==> c in s'.maps && s'.base.sessions[c] == s'.maps[c]
    ensures MapsSound(s')
    ensures forall t :: t in s.base.tunnels ==>
      (Current(s', t) <==> Current(s, t) && !(port in s.maps[cid] && t == s.maps[cid][port]))
  {
  }

  lemma CancelFollows<T>(lim: Limits, s: Full<T>, e: Event<T>)
    requires Closed(s.base) && Owned(s.base) && MapsSound(s) && e.Cancel? && Enabled(s.base, e)
    ensures Follows(s, DoBase(lim, s, e), e)
  {
    var s' := DoBase(lim, s, e);
    CancelMaps(lim, s, e);
    BaseKeepsTunnels(lim, s.base, e);
    EntryRemoved(s, s', e.cid, e.port);
  }

  lemma CancelMaps<T>(lim: Limits, s: Full<T>, e: Event<T>)
    requires Closed(s.base) && Owned(s.base) && MapsSound(s) && e.Cancel? && Enabled(s.base, e)
    ensures var s' := DoBase(lim, s, e);
      && s'.base.starting == s.base.starting
      && s'.maps.Keys == s.maps.Keys && s'.maps[e.cid] == s.maps[e.cid] - {e.port}
      && (forall c :: c in s.maps && c != e.cid ==> s'.maps[c] == s.maps[c])
      && (forall c :: c in s'.base.sessions ==> c in s'.maps && s'.base.sessions[c] == s'.maps[c])
  {
    CancelAt(lim, s.base, e.cid, e.port);
    var s' := DoBase(lim, s, e);
    assert s'.maps == s.maps[e.cid := s'.base.sessions[e.cid]];
  }

  lemma EstablishFollows<T>(lim: Limits, s: Full<T>, e: Event<T>)
    requires Closed(s.base) && MapsSound(s) && e.Establish? && Enabled(s.base, e)
    ensures Follows(s, DoBase(lim, s, e), e)
  {
    assert DoBase(lim, s, e).maps == s.maps[e.cid := map[]];
  }

  lemma OtherMapsUnchanged<T>(lim: Limits, s: Full<T>, e: Event<T>)
    requires MapsSound(s) && !e.Forward? && !e.Cancel? && !e.Establish?
    ensures DoBase(lim, s, e).maps == s.maps
    ensures var b' := DoBase(lim, s, e).base;
      && (forall c :: c in b'.sessions ==> c in s.base.sessions && b'.sessions[c] == s.base.sessions[c])
      && b'.starting <= s.base.starting + (if e.Connect? && e.cid !in s.maps then {e.cid} else {})
  {
    var b' := Step(lim, s.base, e).0;
    assert forall c :: c in b'.sessions ==> c in s.base.sessions && b'.sessions[c] == s.base.sessions[c];
    MapsUnchanged(s.maps, b'.sessions);
  }

  lemma OthersFollow<T>(lim: Limits, s: Full<T>, e: Event<T>)
    requires Closed(s.base) && MapsSound(s) && !e.Forward? && !e.Cancel? && !e.Establish?
    ensures Follows(s, DoBase(lim, s, e), e)
  {
    OtherMapsUnchanged(lim, s, e);
    BaseKeepsTunnels(lim, s.base, e);
  }

  lemma BaseFollows<T>(lim: Limits, s: Full<T>, e: Event<T>)
    requires Closed(s.base) && Owned(s.base) && MapsSound(s)
    ensures Follows(s, DoBase(lim, s, e), e)
  {
    if !Enabled(s.base, e) {
      MapsUnchanged(s.maps, s.base.sessions);
    } else if e.Forward? {
      ForwardFollows(lim, s, e);
    } else if e.Cancel? {
      CancelFollows(lim, s, e);
    } else if e.Establish? {
      EstablishFollows(lim, s, e);
    } else {
      OthersFollow(lim, s, e);
    }
  }

  // ---------- tallies ----------

  /** An event of SessionsSpec settles no debt and makes none: permits and live handlers of a tunnel change together. */
  ghost predicate SameDebts<T>(b: State<T>, b': State<T>) {
    && (forall t :: t in b.tunnels ==> t in b'.tunnels && Owed(b', t) == Owed(b, t))
    && (forall t :: t in b'.tunnels && t !in b.tunnels ==> b'.tunnels[t].held == 0 && InFlight(b'.users, t) == {})
    && (forall t :: t in b'.tunnels ==>
          (t in b.tunnels ==> b.tunnels[t].held == b.tunnels[t].activeConns)
          ==> b'.tunnels[t].held == b'.tunnels[t].activeConns)
  }

  lemma FinishKeepsDebts<T>(b: State<T>, uid: nat)
    requires Closed(b) && uid in b.users
    ensures SameDebts(b, DoFinish(b, uid).0)
  {
    var b' := DoFinish(b, uid).0;
    forall t | t in b.tunnels ensures Owed(b', t) == Owed(b, t) {
      OneUserLess(b.users, uid, t);
    }
  }

  lemma SameSlotsSameDebts<T>(b: State<T>, b': State<T>)
    requires Closed(b) && SameSlots(b, b') && SameTunnels(b, b')
    ensures SameDebts(b, b')
  {
    forall t ensures InFlight(b'.users, t) == InFlight(b.users, t) {
    }
  }

  lemma BaseKeepsDebts<T>(lim: Limits, b: State<T>, e: Event<T>)
    requires Closed(b) && !e.Arrive?
    ensures SameDebts(b, Step(lim, b, e).0)
  {
    if Enabled(b, e) {
      if e.Finish? || (e.OpenChannel? && Step(lim, b, e).1 == No) {
        FinishKeepsDebts(b, e.uid);
      } else {
        OtherStepsKeepSlots(lim, b, e);
        BaseKeepsTunnels(lim, b, e);
        SameSlotsSameDebts(b, Step(lim, b, e).0);
      }
    }
  }

  /** A tunnel that is cancelled before a waiting handler has looked up is owed the permit that was taken for it. */
  lemma MissedIsOwed<T>(s: Full<T>, t: T, u: nat)
    requires t in s.base.tunnels && Balanced(s, t) && u in s.entering && s.entering[u].taken == t
    ensures Owed(s.base, t) > 0
  {
    assert u in Waiting(s.entering, t);
  }

  lemma BaseIsTallied<T>(lim: Limits, s: Full<T>, s': Full<T>, e: Event<T>, clean: bool)
    requires EnteringSound(s) && Tallied(s, clean) && s'.entering == s.entering
    requires Follows(s, s', e) && SameDebts(s.base, s'.base)
    ensures Tallied(s', clean && !Misses(s, Base(e)))
  {
    if !clean {
      var t :| t in s.base.tunnels && !Current(s, t) && Owed(s.base, t) > 0;
      assert !Current(s', t) && Owed(s'.base, t) > 0;
    } else if Misses(s, Base(e)) {
      var t := s.base.sessions[e.cid][e.port];
      var u :| u in s.entering && s.entering[u].taken == t;
      MissedIsOwed(s, t, u);
      assert Cancels(s.base, e, t) && !Current(s', t) && Owed(s'.base, t) > 0;
    } else {
      BaseStaysBalanced(s, s', e);
    }
  }

  lemma BaseStaysBalanced<T>(s: Full<T>, s': Full<T>, e: Event<T>)
    requires EnteringSound(s) && Tallied(s, true) && s'.entering == s.entering && !Misses(s, Base(e))
    requires Follows(s, s', e) && SameDebts(s.base, s'.base)
    ensures Tallied(s', true)
  {
    forall t | t in s'.base.tunnels ensures Balanced(s', t) {
      if t in s.base.tunnels {
        assert Balanced(s, t);
      } else {
        assert Waiting(s'.entering, t) == {};
      }
    }
    forall u | u in s'.entering ensures s'.entering[u].taken in s'.base.tunnels && Current(s', s'.entering[u].taken) {
      assert !Cancels(s.base, e, s.entering[u].taken);
    }
  }

  // ---------- the two lookups ----------

  lemma OneMoreWaiting<T>(entering: map<nat, Entering<T>>, uid: nat, e: Entering<T>, t: T)
    requires uid !in entering
    ensures |Waiting(entering[uid := e], t)| == |Waiting(entering, t)| + if e.taken == t then 1 else 0
  {
    assert Waiting(entering[uid := e], t) == Waiting(entering, t) + if e.taken == t then {uid} else {};
  }

  lemma OneWaitingLess<T>(entering: map<nat, Entering<T>>, uid: nat, t: T)
    requires uid in entering
    ensures |Waiting(entering - {uid}, t)| == |Waiting(entering, t)| - if entering[uid].taken == t then 1 else 0
  {
    assert Waiting(entering - {uid}, t) == Waiting(entering, t) - {uid};
  }

  /** Only slots of a tunnel have changed. */
  ghost predicate OnlySlots<T>(b: State<T>, b': State<T>) {
    && b'.sessions == b.sessions && b'.starting == b.starting && b'.held == b.held && b'.users == b.users
    && b'.bound == b.bound && b'.outside == b.outside && b'.tunnels.Keys == b.tunnels.Keys
    && forall t :: t in b.tunnels ==>
         var r, r' := b.tunnels[t], b'.tunnels[t];
         r'.port == r.port && r'.owner == r.owner && r'.listening == r.listening
  }

  lemma SlotsAreSound<T>(lim: Limits, b: State<T>, b': State<T>)
    requires Closed(b) && Owned(b) && Permits(lim, b) && OnlySlots(b, b')
    ensures Closed(b') && Owned(b') && Permits(lim, b')
  {
    SameListenersOwned(b, b');
  }

  lemma AdmitIsLocal<T>(lim: Limits, s: Full<T>, l: T, uid: nat)
    requires MapsSound(s) && EnteringSound(s) && MayAdmit(s, l, uid)
    ensures var s' := DoAdmit(lim, s, l, uid); OnlySlots(s.base, s'.base) && MapsSound(s') && EnteringSound(s')
  {
  }

  lemma AdmitIsSound<T>(lim: Limits, s: Full<T>, l: T, uid: nat)
    requires Sound(lim, s) && MayAdmit(s, l, uid)
    ensures Sound(lim, DoAdmit(lim, s, l, uid))
  {
    AdmitIsLocal(lim, s, l, uid);
    SlotsAreSound(lim, s.base, DoAdmit(lim, s, l, uid).base);
  }

  lemma AdmitIsTallied<T>(lim: Limits, s: Full<T>, l: T, uid: nat, clean: bool)
    requires MapsSound(s) && EnteringSound(s) && Tallied(s, clean) && MayAdmit(s, l, uid)
    ensures Tallied(DoAdmit(lim, s, l, uid), clean)
  {
    var s' := DoAdmit(lim, s, l, uid);
    if s' != s {
      var e := s'.entering[uid];
      assert Current(s, e.taken);
      forall t | t in s.base.tunnels ensures Current(s', t) <==> Current(s, t) {
      }
      if clean {
        forall t | t in s'.base.tunnels ensures Balanced(s', t) {
          assert Balanced(s, t);
          OneMoreWaiting(s.entering, uid, e, t);
        }
      } else {
        var t :| t in s.base.tunnels && !Current(s, t) && Owed(s.base, t) > 0;
        assert !Current(s', t) && Owed(s'.base, t) > 0;
      }
    }
  }

  lemma LookUpIsSound<T>(lim: Limits, s: Full<T>, uid: nat)
    requires Sound(lim, s) && uid in s.entering
    ensures Sound(lim, DoLookUp(s, uid))
  {
    SameListenersOwned(s.base, DoLookUp(s, uid).base);
  }

  lemma LookUpIsTallied<T>(s: Full<T>, uid: nat, clean: bool)
    requires MapsSound(s) && EnteringSound(s) && Tallied(s, clean) && uid in s.entering
    ensures Tallied(DoLookUp(s, uid), clean)
  {
    var s', e := DoLookUp(s, uid), s.entering[uid];
    if clean {
      assert Current(s, e.taken);
      forall t | t in s'.base.tunnels ensures Balanced(s', t) {
        assert Balanced(s, t);
        OneWaitingLess(s.entering, uid, t);
        OneMoreUser(s.base.users, uid, User(e.taken, false), t);
      }
      forall u | u in s'.entering ensures Current(s', s'.entering[u].taken) {
        assert Current(s, s.entering[u].taken);
      }
    } else {
      var t :| t in s.base.tunnels && !Current(s, t) && Owed(s.base, t) > 0;
      if Present(s, e.cid, e.port) {
        OneMoreUser(s.base.users, uid, User(s.maps[e.cid][e.port], false), t);
      }
      assert !Current(s', t) && Owed(s'.base, t) > 0;
    }
  }

  // ---------- whole runs ----------

  lemma DoBaseIsSound<T>(lim: Limits, s: Full<T>, e: Event<T>)
    requires Sound(lim, s)
    ensures Sound(lim, DoBase(lim, s, e)) && Follows(s, DoBase(lim, s, e), e)
  {
    BaseFollows(lim, s, e);
    BaseIsSound(lim, s.base, e);
    BaseKeepsTunnels(lim, s.base, e);
    BaseUsers(lim, s.base, e);
  }

  /** Only an arrival brings a user. */
  lemma BaseUsers<T>(lim: Limits, b: State<T>, e: Event<T>)
    ensures e.Arrive? || Step(lim, b, e).0.users.Keys <= b.users.Keys
  {
  }

  lemma DoBaseIsTallied<T>(lim: Limits, s: Full<T>, e: Event<T>, clean: bool)
    requires Sound(lim, s) && Tallied(s, clean)
    ensures Tallied(DoBase(lim, s, e), clean && !Misses(s, Base(e)))
  {
    if !e.Arrive? {
      BaseFollows(lim, s, e);
      BaseKeepsDebts(lim, s.base, e);
      BaseIsTallied(lim, s, DoBase(lim, s, e), e, clean);
    }
  }

  lemma NextIsSound<T>(lim: Limits, s: Full<T>, m: Move<T>)
    requires Sound(lim, s)
    ensures Sound(lim, Next(lim, s, m))
  {
    match m
    case Base(e) => DoBaseIsSound(lim, s, e);
    case Admit(l, uid) => if MayAdmit(s, l, uid) { AdmitIsSound(lim, s, l, uid); }
    case LookUp(uid) => if uid in s.entering { LookUpIsSound(lim, s, uid); }
  }

  lemma NextIsTallied<T>(lim: Limits, s: Full<T>, m: Move<T>, clean: bool)
    requires Sound(lim, s) && Tallied(s, clean)
    ensures Tallied(Next(lim, s, m), clean && !Misses(s, m))
  {
    match m
    case Base(e) => DoBaseIsTallied(lim, s, e, clean);
    case Admit(l, uid) => if MayAdmit(s, l, uid) { AdmitIsTallied(lim, s, l, uid, clean); }
    case LookUp(uid) => if uid in s.entering { LookUpIsTallied(s, uid, clean); }
  }

  lemma {:induction false} AfterIsTallied<T>(lim: Limits, moves: seq<Move<T>>)
    ensures Sound(lim, After(lim, moves)) && Tallied(After(lim, moves), Clean(lim, moves))
  {
    if |moves| > 0 {
      AfterIsTallied(lim, moves[..|moves| - 1]);
      NextIsSound(lim, After(lim, moves[..|moves| - 1]), moves[|moves| - 1]);
      NextIsTallied(lim, After(lim, moves[..|moves| - 1]), moves[|moves| - 1], Clean(lim, moves[..|moves| - 1]));
    }
  }

  /** Permits taken, ActiveConns and live handlers of every tunnel are equal. */
  ghost predicate Conserved<T>(b: State<T>) {
    forall t :: t in b.tunnels ==> b.tunnels[t].held == b.tunnels[t].activeConns == |InFlight(b.users, t)|
  }

  /**
   Slots are conserved exactly when no cancel of a tunnel falls between the two lookups of one of its handlers: for
   every run that leaves no handler before its lookup.
   */
  lemma ConservedIff<T>(lim: Limits, moves: seq<Move<T>>)
    requires After(lim, moves).entering == map[]
    ensures Conserved(After(lim, moves).base) <==> Clean(lim, moves)
  {
    AfterIsTallied(lim, moves);
    var s := After(lim, moves);
    if Clean(lim, moves) {
      forall t | t in s.base.tunnels ensures s.base.tunnels[t].held == |InFlight(s.base.users, t)| {
        assert Balanced(s, t) && Waiting(s.entering, t) == {};
      }
    } else {
      var t :| t in s.base.tunnels && !Current(s, t) && Owed(s.base, t) > 0;
      assert s.base.tunnels[t].held != |InFlight(s.base.users, t)|;
    }
  }

  /** With nothing in between, the two lookups make the arrival of SessionsSpec. */
  lemma TogetherAnArrival<T>(lim: Limits, s: Full<T>, l: T, uid: nat)
    requires Closed(s.base) && MapsSound(s) && MayAdmit(s, l, uid) && s.base.tunnels[l].owner in s.base.sessions
    ensures var s1 := DoAdmit(lim, s, l, uid);
      && DoArrive(lim, s.base, l, uid).0 == (if uid in s1.entering then DoLookUp(s1, uid).base else s1.base)
      && (DoArrive(lim, s.base, l, uid).1 == Yes <==> uid in s1.entering)
  {
    var port, cid := s.base.tunnels[l].port, s.base.tunnels[l].owner;
    assert Present(s, cid, port) <==> port in s.base.sessions[cid];
  }

  // ---------- when a permit is given back that nobody took ----------

  /** This lookup finds another tunnel than the one whose permit was taken. */
  ghost predicate Strays<T>(s: Full<T>, m: Move<T>) {
    && m.LookUp? && m.uid in s.entering
    && var e := s.entering[m.uid]; Present(s, e.cid, e.port) && s.maps[e.cid][e.port] != e.taken
  }

  /** No lookup finds another tunnel. */
  ghost predicate Straight<T>(lim: Limits, moves: seq<Move<T>>) {
    |moves| == 0
    || (Straight(lim, moves[..|moves| - 1]) && !Strays(After(lim, moves[..|moves| - 1]), moves[|moves| - 1]))
  }

  /** The handlers that will give back a permit of this tunnel, or wait with one for their lookup. */
  ghost function Claims<T>(s: Full<T>, t: T): nat {
    |InFlight(s.base.users, t)| + |Waiting(s.entering, t)|
  }

  /** Every claim on a tunnel is covered by a permit; where the tunnel is in its map, no permit is left over. */
  ghost predicate Covered<T>(s: Full<T>) {
    forall t :: t in s.base.tunnels ==>
      s.base.tunnels[t].held >= Claims(s, t) && (Current(s, t) ==> s.base.tunnels[t].held == Claims(s, t))
  }

  lemma BaseIsCovered<T>(s: Full<T>, s': Full<T>, e: Event<T>)
    requires EnteringSound(s) && Covered(s) && s'.entering == s.entering
    requires Follows(s, s', e) && SameDebts(s.base, s'.base)
    ensures Covered(s')
  {
    forall t | t in s'.base.tunnels
      ensures s'.base.tunnels[t].held >= Claims(s', t)
      ensures Current(s', t) ==> s'.base.tunnels[t].held == Claims(s', t)
    {
      if t in s.base.tunnels {
        assert Owed(s'.base, t) == Owed(s.base, t);
      } else {
        assert Waiting(s'.entering, t) == {};
      }
    }
  }

  lemma AdmitIsCovered<T>(lim: Limits, s: Full<T>, l: T, uid: nat)
    requires MapsSound(s) && Covered(s) && MayAdmit(s, l, uid)
    ensures Covered(DoAdmit(lim, s, l, uid))
  {
    var s' := DoAdmit(lim, s, l, uid);
    if s' != s {
      var e := s'.entering[uid];
      forall t | t in s'.base.tunnels
        ensures s'.base.tunnels[t].held >= Claims(s', t)
        ensures Current(s', t) ==> s'.base.tunnels[t].held == Claims(s', t)
      {
        OneMoreWaiting(s.entering, uid, e, t);
        assert Current(s', t) ==> Current(s, t);
      }
    }
  }

  /** What a lookup does to the claims on a tunnel. */
  lemma LookUpClaims<T>(s: Full<T>, uid: nat, t: T)
    requires EnteringSound(s) && uid in s.entering
    ensures var e := s.entering[uid];
      Claims(DoLookUp(s, uid), t) == Claims(s, t)
        - (if e.taken == t then 1 else 0)
        + (if Present(s, e.cid, e.port) && s.maps[e.cid][e.port] == t then 1 else 0)
  {
    var e := s.entering[uid];
    OneWaitingLess(s.entering, uid, t);
    if Present(s, e.cid, e.port) {
      OneMoreUser(s.base.users, uid, User(s.maps[e.cid][e.port], false), t);
    }
  }

  lemma LookUpIsCovered<T>(s: Full<T>, uid: nat)
    requires MapsSound(s) && EnteringSound(s) && Covered(s) && uid in s.entering && !Strays(s, LookUp(uid))
    ensures Covered(DoLookUp(s, uid))
  {
    var s', e := DoLookUp(s, uid), s.entering[uid];
    forall t | t in s'.base.tunnels
      ensures s'.base.tunnels[t].held >= Claims(s', t)
      ensures Current(s', t) ==> s'.base.tunnels[t].held == Claims(s', t)
    {
      LookUpClaims(s, uid, t);
      assert Current(s', t) ==> Current(s, t);
      assert Current(s, e.taken) ==> Present(s, e.cid, e.port);
    }
  }

  lemma NextIsCovered<T>(lim: Limits, s: Full<T>, m: Move<T>)
    requires Sound(lim, s) && Covered(s) && !Strays(s, m)
    ensures Covered(Next(lim, s, m))
  {
    match m
    case Base(e) =>
      if !e.Arrive? {
        BaseFollows(lim, s, e);
        BaseKeepsDebts(lim, s.base, e);
        BaseIsCovered(s, DoBase(lim, s, e), e);
      }
    case Admit(l, uid) => if MayAdmit(s, l, uid) { AdmitIsCovered(lim, s, l, uid); }
    case LookUp(uid) => if uid in s.entering { LookUpIsCovered(s, uid); }
  }

  lemma {:induction false} AfterIsCovered<T>(lim: Limits, moves: seq<Move<T>>)
    requires Straight(lim, moves)
    ensures Covered(After(lim, moves))
  {
    if |moves| > 0 {
      AfterIsTallied(lim, moves[..|moves| - 1]);
      AfterIsCovered(lim, moves[..|moves| - 1]);
      NextIsCovered(lim, After(lim, moves[..|moves| - 1]), moves[|moves| - 1]);
    }
  }

  /** The event releases a permit of a tunnel of which none is taken; the semaphore answers that with a panic. */
  ghost predicate Panics<T>(lim: Limits, b: State<T>, e: Event<T>) {
    && Closed(b) && Enabled(b, e) && (e.Finish? || (e.OpenChannel? && Step(lim, b, e).1 == No))
    && b.tunnels[b.users[e.uid].tunnel].held < 1
  }

  lemma InFlightHasMember<T>(users: map<nat, User<T>>, uid: nat)
    requires uid in users
    ensures |InFlight(users, users[uid].tunnel)| >= 1
  {
    assert uid in InFlight(users, users[uid].tunnel);
  }

  /**
   As long as no lookup finds another tunnel than the one whose permit was taken, no tunnel has fewer permits taken than
   handlers live, and no release panics. (Every beginning of such a run is one too, so this holds at each step.)
   */
  lemma StraightNeverPanics<T>(lim: Limits, moves: seq<Move<T>>, e: Event<T>)
    requires Straight(lim, moves)
    ensures var b := After(lim, moves).base;
      && (forall t :: t in b.tunnels ==> b.tunnels[t].held >= |InFlight(b.users, t)|)
      && !Panics(lim, b, e)
  {
    AfterIsCovered(lim, moves);
    var s := After(lim, moves);
    forall t | t in s.base.tunnels ensures s.base.tunnels[t].held >= |InFlight(s.base.users, t)| {
      assert s.base.tunnels[t].held >= Claims(s, t);
    }
    if Panics(lim, s.base, e) {
      InFlightHasMember(s.base.users, e.uid);
    }
  }

  /** The first lookup that does find another tunnel leaves that one a permit short of its handlers, live or waiting. */
  lemma StrayLeavesOneShort<T>(lim: Limits, moves: seq<Move<T>>, uid: nat)
    requires Straight(lim, moves) && Strays(After(lim, moves), LookUp(uid))
    ensures var s, s' := After(lim, moves), Next(lim, After(lim, moves), LookUp(uid));
      var t := s.maps[s.entering[uid].cid][s.entering[uid].port];
      t in s'.base.tunnels && s'.base.tunnels[t].held == Claims(s', t) - 1
  {
    AfterIsTallied(lim, moves);
    AfterIsCovered(lim, moves);
    StrayAt(After(lim, moves), uid);
  }

  lemma StrayAt<T>(s: Full<T>, uid: nat)
    requires MapsSound(s) && EnteringSound(s) && Covered(s) && Strays(s, LookUp(uid))
    ensures var s', t := DoLookUp(s, uid), s.maps[s.entering[uid].cid][s.entering[uid].port];
      t in s'.base.tunnels && s'.base.tunnels[t].held == Claims(s', t) - 1
  {
    var t := s.maps[s.entering[uid].cid][s.entering[uid].port];
    assert Current(s, t);
    LookUpClaims(s, uid, t);
  }

  ghost function BaseRun<T>(lim: Limits, b: State<T>, evs: seq<Event<T>>): State<T> {
    if |evs| == 0 then b else Step(lim, BaseRun(lim, b, evs[..|evs| - 1]), evs[|evs| - 1]).0
  }

  lemma {:induction false} BaseRunKeepsOwed<T>(lim: Limits, b: State<T>, evs: seq<Event<T>>, t: T)
    requires Closed(b) && t in b.tunnels && forall i :: 0 <= i < |evs| ==> !evs[i].Arrive?
    ensures var b' := BaseRun(lim, b, evs); Closed(b') && t in b'.tunnels && Owed(b', t) == Owed(b, t)
  {
    if |evs| > 0 {
      var before := evs[..|evs| - 1];
      BaseRunKeepsOwed(lim, b, before, t);
      ClosedKept(lim, BaseRun(lim, b, before), evs[|evs| - 1]);
      BaseKeepsDebts(lim, BaseRun(lim, b, before), evs[|evs| - 1]);
    }
  }

  /** Only a release takes a permit from the count. */
  lemma StepTakesNoPermit<T>(lim: Limits, b: State<T>, e: Event<T>, t: T)
    requires Closed(b) && t in b.tunnels && !e.Arrive? && b.tunnels[t].held >= 0 && !Panics(lim, b, e)
    ensures var b' := Step(lim, b, e).0; t in b'.tunnels && b'.tunnels[t].held >= 0
  {
  }

  /** No user comes, and no release panics. */
  ghost predicate Panicless<T>(lim: Limits, b: State<T>, evs: seq<Event<T>>) {
    |evs| == 0
    || (var before, last := evs[..|evs| - 1], evs[|evs| - 1];
        Panicless(lim, b, before) && !last.Arrive? && !Panics(lim, BaseRun(lim, b, before), last))
  }

  lemma {:induction false} WithoutPanic<T>(lim: Limits, b: State<T>, evs: seq<Event<T>>, t: T)
    requires Closed(b) && t in b.tunnels && b.tunnels[t].held >= 0 && Panicless(lim, b, evs)
    ensures var b' := BaseRun(lim, b, evs); Closed(b') && t in b'.tunnels && b'.tunnels[t].held >= 0
  {
    if |evs| > 0 {
      var before := evs[..|evs| - 1];
      WithoutPanic(lim, b, before, t);
      ClosedKept(lim, BaseRun(lim, b, before), evs[|evs| - 1]);
      StepTakesNoPermit(lim, BaseRun(lim, b, before), evs[|evs| - 1], t);
    }
  }

  /** A tunnel that has fewer permits taken than handlers live: if all of these end before a user comes, one panics. */
  lemma ShortEndsInPanic<T>(lim: Limits, b: State<T>, evs: seq<Event<T>>, t: T)
    requires Closed(b) && t in b.tunnels && 0 <= b.tunnels[t].held < |InFlight(b.users, t)|
    requires forall i :: 0 <= i < |evs| ==> !evs[i].Arrive?
    requires InFlight(BaseRun(lim, b, evs).users, t) == {}
    ensures !Panicless(lim, b, evs)
  {
    BaseRunKeepsOwed(lim, b, evs, t);
    if Panicless(lim, b, evs) {
      WithoutPanic(lim, b, evs, t);
    }
  }

  // ---------- what goes wrong otherwise ----------

  lemma AdmitTakes<T>(lim: Limits, s: Full<T>, cid: nat, port: nat, uid: nat)
    requires MapsSound(s) && cid in s.base.sessions && port in s.base.sessions[cid]
    requires uid !in s.base.users && uid !in s.entering
    requires s.base.tunnels[s.base.sessions[cid][port]].held < lim.maxConnsPerTunnel
    ensures var t := s.base.sessions[cid][port];
      var s' := Next(lim, s, Admit(t, uid));
      && s'.entering == s.entering[uid := Entering(cid, port, t)] && s'.base.users == s.base.users
      && s'.base.sessions == s.base.sessions && s'.base.tunnels.Keys == s.base.tunnels.Keys
  {
  }

  lemma CancelRemoves<T>(lim: Limits, s: Full<T>, cid: nat, port: nat)
    requires Closed(s.base) && Owned(s.base) && cid in s.base.sessions && port in s.base.sessions[cid]
    ensures var s' := Next(lim, s, Base(Cancel(cid, port)));
      && s'.entering == s.entering && s'.base.users == s.base.users && s'.base.tunnels.Keys == s.base.tunnels.Keys
      && cid in s'.base.sessions && |s'.base.sessions[cid]| < |s.base.sessions[cid]|
      && port !in s'.base.bound && port !in s'.base.outside
  {
    CancelAt(lim, s.base, cid, port);
    assert Placed(s.base, s.base.sessions[cid][port]);
    assert (s.base.sessions[cid] - {port}).Keys == s.base.sessions[cid].Keys - {port};
  }

  lemma ForwardAdds<T>(lim: Limits, s: Full<T>, e: Event<T>)
    requires Closed(s.base) && Owned(s.base) && MapsSound(s) && e.Forward? && Enabled(s.base, e) && e.able
    requires 0 < e.port <= MAX_TCP_PORT && lim.minPort <= e.port <= lim.maxPort
    requires |s.base.sessions[e.cid]| < lim.maxTunnels && e.port !in s.base.bound && e.port !in s.base.outside
    ensures var s' := Next(lim, s, Base(e));
      && s'.entering == s.entering && s'.base.users == s.base.users
      && Present(s', e.cid, e.port) && s'.maps[e.cid][e.port] == e.id && s'.base.tunnels[e.id].held == 0
  {
    assert Grant(lim, s.base, e.cid, e.port, e.choice, e.able) == Some(e.port);
    ForwardMaps(lim, s, e, e.port);
  }

  /** The handler looks up the tunnel that is there now and gives that one's permit back. */
  lemma LeaveReleases<T>(lim: Limits, s: Full<T>, uid: nat)
    requires Closed(s.base) && uid in s.entering && uid !in s.base.users
    requires Present(s, s.entering[uid].cid, s.entering[uid].port)
    ensures var id := s.maps[s.entering[uid].cid][s.entering[uid].port];
      var found := Next(lim, s, LookUp(uid));
      var s' := Next(lim, found, Base(OpenChannel(uid, false)));
      && (s.base.tunnels[id].held < 1 ==> Panics(lim, found.base, OpenChannel(uid, false)))
      && id in s'.base.tunnels && s'.base.tunnels[id].held == s.base.tunnels[id].held - 1
  {
    var s1 := Next(lim, s, LookUp(uid));
    assert Closed(s1.base) && Enabled(s1.base, OpenChannel(uid, false));
  }

  /** The three moves between the two lookups. */
  ghost function Reforwarded<T>(lim: Limits, s: Full<T>, cid: nat, port: nat, addr: string, uid: nat, id: T): Full<T>
    requires cid in s.base.sessions && port in s.base.sessions[cid]
  {
    var s1 := Next(lim, s, Admit(s.base.sessions[cid][port], uid));
    Next(lim, Next(lim, s1, Base(Cancel(cid, port))), Base(Forward(cid, addr, port, 0, true, id)))
  }

  lemma Replaced<T>(lim: Limits, s: Full<T>, cid: nat, port: nat, addr: string, uid: nat, id: T)
    requires Sound(lim, s) && cid in s.base.sessions && port in s.base.sessions[cid]
    requires uid !in s.base.users && uid !in s.entering && id !in s.base.tunnels
    requires s.base.tunnels[s.base.sessions[cid][port]].held < lim.maxConnsPerTunnel
    requires 0 < port <= MAX_TCP_PORT && lim.minPort <= port <= lim.maxPort
    ensures var t, s' := s.base.sessions[cid][port], Reforwarded(lim, s, cid, port, addr, uid, id);
      && Present(s', cid, port) && s'.maps[cid][port] == id && s'.base.tunnels[id].held == 0
      && s'.entering == s.entering[uid := Entering(cid, port, t)] && uid !in s'.base.users && Sound(lim, s')
  {
    var t := s.base.sessions[cid][port];
    var s1 := Next(lim, s, Admit(t, uid));
    NextIsSound(lim, s, Admit(t, uid));
    AdmitTakes(lim, s, cid, port, uid);
    var s2 := Next(lim, s1, Base(Cancel(cid, port)));
    NextIsSound(lim, s1, Base(Cancel(cid, port)));
    CancelRemoves(lim, s1, cid, port);
    NextIsSound(lim, s2, Base(Forward(cid, addr, port, 0, true, id)));
    ForwardAdds(lim, s2, Forward(cid, addr, port, 0, true, id));
  }

  /**
   A user is admitted, its tunnel is cancelled and its port forwarded again before the handler looks up. Whatever the
   state was, the handler then is alone on a tunnel of which nobody took a permit, and its release panics; the count
   would be -1.
   */
  lemma ReleasesWhatNobodyTook<T>(lim: Limits, s: Full<T>, cid: nat, port: nat, addr: string, uid: nat, id: T)
    requires Sound(lim, s) && cid in s.base.sessions && port in s.base.sessions[cid]
    requires uid !in s.base.users && uid !in s.entering && id !in s.base.tunnels
    requires s.base.tunnels[s.base.sessions[cid][port]].held < lim.maxConnsPerTunnel
    requires 0 < port <= MAX_TCP_PORT && lim.minPort <= port <= lim.maxPort
    ensures var s' := Reforwarded(lim, s, cid, port, addr, uid, id);
      var found := Next(lim, s', LookUp(uid));
      var after := Next(lim, found, Base(OpenChannel(uid, false)));
      && Panics(lim, found.base, OpenChannel(uid, false))
      && id in after.base.tunnels && after.base.tunnels[id].held == -1
  {
    Replaced(lim, s, cid, port, addr, uid, id);
    LeaveReleases(lim, Reforwarded(lim, s, cid, port, addr, uid, id), uid);
  }
}
