/**
 The blocker of pkg/auth/blocker.go on values, twice.

 `Cached` is what it keeps: the disk (absent in memory-only mode) and the recency list of its bounded cache.
 `Table` is what it means: one unbounded map from addresses to records. Each public call is one step of either machine.
 Main result: with a disk, the two answer every run of calls alike.
 */
module BlockerSpec {
  import opened Options
  import opened Records
  import opened Lru

  type Table = map<string, Rec>

  datatype Call =
    | RecordFailure(ip: string, now: int)
    | ResetFailure(ip: string)
    | IsBlocked(ip: string, now: int)
    | BlockedCount(now: int)
    | CleanExpired(now: int)
    | Restart

  datatype Answer = Done | Blocked(yes: bool) | Count(n: int)

  // ---------- the simple blocker ----------

  function Lookup(t: Table, ip: string): Option<Rec> {
    if ip in t then Some(t[ip]) else None
  }

  function OrZero(r: Option<Rec>): Rec {
    if r.Some? then r.value else ZERO_REC
  }

  ghost function BlockedSet(t: Table, now: int): set<string> {
    set ip | ip in t && t[ip].IsBlocked(now)
  }

  ghost function ExpiredSet(cfg: Config, t: Table, now: int): set<string> {
    set ip | ip in t && Expired(cfg, t[ip], now)
  }

  ghost predicate BlockedIn(t: Table, ip: string, now: int) {
    ip in t && t[ip].IsBlocked(now)
  }

  /** One call on the table. Without a disk nothing is cleaned, counted, or kept over a restart. */
  ghost function SimpleStep(cfg: Config, durable: bool, t: Table, call: Call): (Table, Answer) {
    match call
    case RecordFailure(ip, now) => (t[ip := Failed(cfg, OrZero(Lookup(t, ip)), now)], Done)
    case ResetFailure(ip) => (t - {ip}, Done)
    case IsBlocked(ip, now) => (t, Blocked(BlockedIn(t, ip, now)))
    case BlockedCount(now) => (t, Count(if durable then |BlockedSet(t, now)| else 0))
    case CleanExpired(now) => (if durable then t - ExpiredSet(cfg, t, now) else t, Done)
    case Restart => (if durable then t else map[], Done)
  }

  ghost function SimpleRun(cfg: Config, durable: bool, t: Table, calls: seq<Call>): (Table, seq<Answer>) {
    if |calls| == 0 then (t, [])
    else
      var before := SimpleRun(cfg, durable, t, calls[..|calls| - 1]);
      var step := SimpleStep(cfg, durable, before.0, calls[|calls| - 1]);
      (step.0, before.1 + [step.1])
  }

  // ---------- the cached blocker ----------

  datatype Cached = Cached(db: Option<Table>, view: seq<Entry<Rec>>)

  /** getRecord: the cache first, then the disk, which fills the cache. */
  ghost function Fetch(cap: int, c: Cached, ip: string): (Cached, Option<Rec>) {
    match Find(c.view, ip)
    case Some(r) => (c.(view := Touch(c.view, ip)), Some(r))
    case None =>
      if c.db.Some? && ip in c.db.value
      then (c.(view := Insert(cap, c.view, ip, c.db.value[ip])), Some(c.db.value[ip]))
      else (c, None)
  }

  ghost function Store(db: Option<Table>, ip: string, r: Rec): Option<Table> {
    if db.Some? then Some(db.value[ip := r]) else None
  }

  /** putRecord and lru.put. */
  ghost function Save(cap: int, c: Cached, ip: string, r: Rec): Cached {
    Cached(Store(c.db, ip, r), Insert(cap, c.view, ip, r))
  }

  ghost function Erase(db: Option<Table>, ips: set<string>): Option<Table> {
    if db.Some? then Some(db.value - ips) else None
  }

  ghost function WithoutAll(l: seq<Entry<Rec>>, dead: set<string>): seq<Entry<Rec>> {
    if |l| == 0 then [] else (if l[0].key in dead then [] else [l[0]]) + WithoutAll(l[1..], dead)
  }

  ghost function CachedStep(cfg: Config, c: Cached, call: Call): (Cached, Answer) {
    match call
    case RecordFailure(ip, now) =>
      var (c1, r) := Fetch(cfg.lruSize, c, ip);
      (Save(cfg.lruSize, c1, ip, Failed(cfg, OrZero(r), now)), Done)
    case ResetFailure(ip) =>
      (Cached(Erase(c.db, {ip}), Without(c.view, ip)), Done)
    case IsBlocked(ip, now) =>
      var (c1, r) := Fetch(cfg.lruSize, c, ip);
      (c1, Blocked(r.Some? && r.value.IsBlocked(now)))
    case BlockedCount(now) =>
      (c, Count(if c.db.Some? then |BlockedSet(c.db.value, now)| else 0))
    case CleanExpired(now) =>
      if c.db.None? then (c, Done)
      else
        var dead := ExpiredSet(cfg, c.db.value, now);
        (Cached(Erase(c.db, dead), WithoutAll(c.view, dead)), Done)
    case Restart =>
      (c.(view := []), Done)
  }

  ghost function CachedRun(cfg: Config, c: Cached, calls: seq<Call>): (Cached, seq<Answer>) {
    if |calls| == 0 then (c, [])
    else
      var before := CachedRun(cfg, c, calls[..|calls| - 1]);
      var step := CachedStep(cfg, before.0, calls[|calls| - 1]);
      (step.0, before.1 + [step.1])
  }

  /** The cache is a well-formed list, and every cached record equals the disk record of its key. */
  ghost predicate Agree(cfg: Config, c: Cached) {
    && c.db.Some?
    && Wellformed(cfg.lruSize, c.view)
    && forall q :: Find(c.view, q).Some? ==> Lookup(c.db.value, q) == Find(c.view, q)
  }

  // ---------- refinement ----------

  lemma {:induction false} WithoutAllFind(l: seq<Entry<Rec>>, dead: set<string>, q: string)
    ensures Keys(WithoutAll(l, dead)) == Keys(l) - dead && |WithoutAll(l, dead)| <= |l|
    ensures Distinct(l) ==> Distinct(WithoutAll(l, dead))
    ensures Find(WithoutAll(l, dead), q) == if q in dead then None else Find(l, q)
  {
    if |l| > 0 {
      WithoutAllFind(l[1..], dead, q);
      FrontKeys(l[0], WithoutAll(l[1..], dead));
      assert [] + WithoutAll(l[1..], dead) == WithoutAll(l[1..], dead);
    }
  }

  /** getRecord returns the table's record, changes no disk, and keeps the agreement. */
  lemma FetchAgrees(cfg: Config, c: Cached, ip: string)
    requires cfg.Valid() && Agree(cfg, c)
    ensures var (c1, r) := Fetch(cfg.lruSize, c, ip);
      r == Lookup(c.db.value, ip) && c1.db == c.db && Agree(cfg, c1) && Find(c1.view, ip) == r
  {
    var (c1, r) := Fetch(cfg.lruSize, c, ip);
    forall q
      ensures Find(c1.view, q).Some? ==> Lookup(c.db.value, q) == Find(c1.view, q)
      ensures Wellformed(cfg.lruSize, c1.view)
      ensures q == ip ==> Find(c1.view, q) == r
    {
      if Find(c.view, ip).Some? {
        TouchFind(cfg.lruSize, c.view, ip, q);
      } else if ip in c.db.value {
        InsertFind(cfg.lruSize, c.view, ip, c.db.value[ip], q);
      }
    }
  }

  /** One call: same answer, same table, agreement kept. */
  lemma StepRefines(cfg: Config, c: Cached, call: Call)
    requires cfg.Valid() && Agree(cfg, c)
    ensures var (c', a) := CachedStep(cfg, c, call);
      var (t', b) := SimpleStep(cfg, true, c.db.value, call);
      Agree(cfg, c') && c'.db == Some(t') && a == b
  {
    var (c', a) := CachedStep(cfg, c, call);
    match call
    case RecordFailure(ip, now) =>
      FetchAgrees(cfg, c, ip);
      var (c1, r) := Fetch(cfg.lruSize, c, ip);
      forall q
        ensures Find(c'.view, q).Some? ==> Lookup(c'.db.value, q) == Find(c'.view, q)
        ensures Wellformed(cfg.lruSize, c'.view)
      {
        InsertFind(cfg.lruSize, c1.view, ip, Failed(cfg, OrZero(r), now), q);
      }
    case ResetFailure(ip) =>
      WithoutKeys(c.view, ip);
      forall q { WithoutFind(c.view, ip, q); }
    case IsBlocked(ip, now) =>
      FetchAgrees(cfg, c, ip);
    case BlockedCount(now) =>
    case CleanExpired(now) =>
      var dead := ExpiredSet(cfg, c.db.value, now);
      forall q
        ensures Find(c'.view, q) == if q in dead then None else Find(c.view, q)
        ensures Wellformed(cfg.lruSize, c'.view)
      {
        WithoutAllFind(c.view, dead, q);
      }
    case Restart =>
  }

  /**
   The cached blocker refines the simple one: for every cache size and every run of calls, restarts included, the
   answers are those of one unbounded map, and the disk is that map.
   */
  lemma {:induction false} CachedRefinesSimple(cfg: Config, c: Cached, calls: seq<Call>)
    requires cfg.Valid() && Agree(cfg, c)
    ensures var (c', answers) := CachedRun(cfg, c, calls);
      var (t', answers') := SimpleRun(cfg, true, c.db.value, calls);
      answers == answers' && c'.db == Some(t') && Agree(cfg, c')
  {
    if |calls| > 0 {
      CachedRefinesSimple(cfg, c, calls[..|calls| - 1]);
      StepRefines(cfg, CachedRun(cfg, c, calls[..|calls| - 1]).0, calls[|calls| - 1]);
    }
  }

  // ---------- counting ----------

  /** The count is that of the addresses which IsBlocked would call blocked; without a disk nothing is counted. */
  lemma CountsWhatIsBlocked(cfg: Config, durable: bool, t: Table, now: int)
    ensures var blocked := set ip | ip in t && SimpleStep(cfg, durable, t, IsBlocked(ip, now)).1 == Blocked(true);
      && SimpleStep(cfg, durable, t, BlockedCount(now)).1 == Count(if durable then |blocked| else 0)
      && forall ip :: ip in blocked <==> ip in t && t[ip].blockedUntil != 0 && now < t[ip].blockedUntil
  {
    assert BlockedSet(t, now)
        == set ip | ip in t && SimpleStep(cfg, durable, t, IsBlocked(ip, now)).1 == Blocked(true);
  }

  // ---------- cleaning ----------

  /** Clock readings of a run are not before `start` and never go back. */
  ghost predicate Clocked(calls: seq<Call>, start: int) {
    && (forall i :: 0 <= i < |calls| && HasTime(calls[i]) ==> start <= calls[i].now)
    && (forall i, j :: 0 <= i < j < |calls| && HasTime(calls[i]) && HasTime(calls[j]) ==> calls[i].now <= calls[j].now)
  }

  predicate HasTime(c: Call) {
    !c.ResetFailure? && !c.Restart?
  }

  /** t is u except for some records of `removed` addresses, none of which blocks at or after `now`. */
  ghost predicate OnlyIdleMissing(t: Table, u: Table, removed: set<string>, now: int) {
    && t.Keys <= u.Keys
    && (forall ip :: ip in t ==> t[ip] == u[ip])
    && (forall ip :: ip in u && ip !in t ==> ip in removed && !u[ip].IsBlocked(now))
  }

  lemma IdleStep(cfg: Config, t: Table, u: Table, removed: set<string>, clock: int, call: Call)
    requires OnlyIdleMissing(t, u, removed, clock)
    requires HasTime(call) ==> clock <= call.now
    requires call.RecordFailure? ==> call.ip !in removed
    ensures var (t', a) := SimpleStep(cfg, true, t, call);
      var (u', b) := SimpleStep(cfg, true, u, call);
      a == b && OnlyIdleMissing(t', u', removed, if HasTime(call) then call.now else clock)
  {
    if call.BlockedCount? {
      assert BlockedSet(t, call.now) == BlockedSet(u, call.now);
    }
  }

  /**
   Cleaning is invisible: a run with a clean inserted before it gives the same answers, block counts included, at every
   later time, as long as no cleaned address fails again.
   */
  lemma {:induction false} CleaningIsInvisible(cfg: Config, t: Table, now: int, calls: seq<Call>)
    requires Clocked(calls, now)
    requires forall i :: 0 <= i < |calls| && calls[i].RecordFailure? ==> calls[i].ip !in ExpiredSet(cfg, t, now)
    ensures var cleaned := SimpleStep(cfg, true, t, Call.CleanExpired(now)).0;
      && SimpleRun(cfg, true, cleaned, calls).1 == SimpleRun(cfg, true, t, calls).1
      && OnlyIdleMissing(SimpleRun(cfg, true, cleaned, calls).0, SimpleRun(cfg, true, t, calls).0,
                         ExpiredSet(cfg, t, now), LastTime(calls, now))
  {
    var cleaned := SimpleStep(cfg, true, t, Call.CleanExpired(now)).0;
    if |calls| > 0 {
      var before := calls[..|calls| - 1];
      var last := calls[|calls| - 1];
      CleaningIsInvisible(cfg, t, now, before);
      LastTimeBound(calls, now);
      IdleStep(cfg, SimpleRun(cfg, true, cleaned, before).0, SimpleRun(cfg, true, t, before).0,
               ExpiredSet(cfg, t, now), LastTime(before, now), last);
    }
  }

  ghost function LastTime(calls: seq<Call>, start: int): int {
    if |calls| == 0 then start
    else if HasTime(calls[|calls| - 1]) then calls[|calls| - 1].now
    else LastTime(calls[..|calls| - 1], start)
  }

  lemma {:induction false} LastTimeBound(calls: seq<Call>, start: int)
    requires Clocked(calls, start) && |calls| > 0
    ensures HasTime(calls[|calls| - 1]) ==> LastTime(calls[..|calls| - 1], start) <= calls[|calls| - 1].now
  {
    var before := calls[..|calls| - 1];
    LastTimeIsSome(before, start);
  }

  lemma {:induction false} LastTimeIsSome(calls: seq<Call>, start: int)
    ensures LastTime(calls, start) == start
         || exists i :: 0 <= i < |calls| && HasTime(calls[i]) && calls[i].now == LastTime(calls, start)
  {
    if |calls| > 0 && !HasTime(calls[|calls| - 1]) {
      LastTimeIsSome(calls[..|calls| - 1], start);
    }
  }

  /** What one cleaning removes, exactly: the unblocked records whose last failure is older than the cutoff. */
  lemma CleaningRemovesExactly(cfg: Config, c: Cached, now: int, ip: string)
    requires cfg.Valid() && Agree(cfg, c)
    ensures var c' := CachedStep(cfg, c, Call.CleanExpired(now)).0;
      && Agree(cfg, c')
      && (ip in c'.db.value <==>
            (&& ip in c.db.value
             && (|| (c.db.value[ip].blockedUntil != 0 && now < c.db.value[ip].blockedUntil)
                 || (c.db.value[ip].lastFailAt != 0 && c.db.value[ip].lastFailAt >= now - cfg.recordTTL))))
      && (ip in c'.db.value ==> c'.db.value[ip] == c.db.value[ip] && Find(c'.view, ip) == Find(c.view, ip))
      && (ip !in c'.db.value ==> Find(c'.view, ip) == None)
  {
    StepRefines(cfg, c, Call.CleanExpired(now));
    WithoutAllFind(c.view, ExpiredSet(cfg, c.db.value, now), ip);
  }
}
