/**
 The blocker's door: the checks of pkg/server/server.go that stand between a connection and a session, driven over
 whole runs. Callbacks are atomic; each reads the clock where the Go code does, so a password callback has two
 readings, one in IsBlocked and one in RecordFailure.
 */
module Gate {
  import opened Basics
  import opened Options
  import opened Records
  import opened BlockerSpec

  datatype Event =
    | PreCheck(ip: string, now: int)
    | Password(ip: string, pass: string, now: int, later: int)
    | Count(now: int)
    | Clean(now: int)
    | Restart

  datatype Verdict = Barred | Refused | Accepted | Proceed | Counted(n: int) | Quiet

  /** ValidateResponse is not looked into. */
  type Validator = (string, string) -> bool

  predicate Good(valid: Validator, pass: string) {
    |pass| >= 32 && valid(pass[..32], pass[32..])
  }

  ghost function GateStep(cfg: Config, valid: Validator, t: Table, ev: Event): (Table, Verdict) {
    match ev
    case PreCheck(ip, now) => (t, if BlockedIn(t, ip, now) then Barred else Proceed)
    case Password(ip, pass, now, later) =>
      if BlockedIn(t, ip, now) then (t, Barred)
      else if Good(valid, pass) then (SimpleStep(cfg, true, t, ResetFailure(ip)).0, Accepted)
      else (SimpleStep(cfg, true, t, RecordFailure(ip, later)).0, Refused)
    case Count(now) => (t, Counted(SimpleStep(cfg, true, t, BlockedCount(now)).1.n))
    case Clean(now) => (SimpleStep(cfg, true, t, CleanExpired(now)).0, Quiet)
    case Restart => (t, Quiet)
  }

  ghost function GateRun(cfg: Config, valid: Validator, t: Table, evs: seq<Event>): Table {
    if |evs| == 0 then t else GateStep(cfg, valid, GateRun(cfg, valid, t, evs[..|evs| - 1]), evs[|evs| - 1]).0
  }

  /** The verdict on event i of a run. */
  ghost function VerdictAt(cfg: Config, valid: Validator, t: Table, evs: seq<Event>, i: nat): Verdict
    requires i < |evs|
  {
    GateStep(cfg, valid, GateRun(cfg, valid, t, evs[..i]), evs[i]).1
  }

  /** The verdicts on the first n events of a run. */
  ghost function Verdicts(cfg: Config, valid: Validator, t: Table, evs: seq<Event>, n: nat): (vs: seq<Verdict>)
    requires n <= |evs|
    ensures |vs| == n && forall i :: 0 <= i < n ==> vs[i] == VerdictAt(cfg, valid, t, evs, i)
  {
    if n == 0 then [] else Verdicts(cfg, valid, t, evs, n - 1) + [VerdictAt(cfg, valid, t, evs, n - 1)]
  }

  // ---------- the clock ----------

  predicate Timed(ev: Event) {
    !ev.Restart?
  }

  function Start(ev: Event): int
    requires Timed(ev)
  {
    ev.now
  }

  function End(ev: Event): int
    requires Timed(ev)
  {
    if ev.Password? then ev.later else ev.now
  }

  /** Clock readings never go back, and none is before `start`. */
  ghost predicate Timely(evs: seq<Event>, start: int) {
    && (forall i :: 0 <= i < |evs| && Timed(evs[i]) ==> start <= Start(evs[i]) <= End(evs[i]))
    && (forall i, j :: 0 <= i < j < |evs| && Timed(evs[i]) && Timed(evs[j]) ==> End(evs[i]) <= Start(evs[j]))
  }

  /** The last reading of a run. */
  ghost function Clock(evs: seq<Event>, start: int): int {
    if |evs| == 0 then start
    else if Timed(evs[|evs| - 1]) then End(evs[|evs| - 1])
    else Clock(evs[..|evs| - 1], start)
  }

  lemma {:induction false} ClockIsLatest(evs: seq<Event>, start: int)
    requires Timely(evs, start)
    ensures start <= Clock(evs, start)
    ensures forall i :: 0 <= i < |evs| && Timed(evs[i]) ==> End(evs[i]) <= Clock(evs, start)
    ensures Clock(evs, start) == start
      || exists i :: 0 <= i < |evs| && Timed(evs[i]) && End(evs[i]) == Clock(evs, start)
  {
    if |evs| > 0 {
      ClockIsLatest(evs[..|evs| - 1], start);
    }
  }

  lemma LastStarts(evs: seq<Event>, start: int)
    requires |evs| > 0 && Timely(evs, start)
    ensures Timely(evs[..|evs| - 1], start)
    ensures Timed(evs[|evs| - 1]) ==> Clock(evs[..|evs| - 1], start) <= Start(evs[|evs| - 1]) <= End(evs[|evs| - 1])
  {
    ClockIsLatest(evs[..|evs| - 1], start);
  }

  // ---------- a block holds for its whole window ----------

  predicate Concerns(ev: Event, ip: string) {
    (ev.PreCheck? || ev.Password?) && ev.ip == ip
  }

  /** While the clock is before the end of a block, nothing touches the blocked record. */
  lemma {:induction false} BlockedRecordStays(cfg: Config, valid: Validator, t: Table, evs: seq<Event>, ip: string)
    requires ip in t && t[ip].blockedUntil != ZERO_TIME
    requires forall i :: 0 <= i < |evs| && Timed(evs[i]) ==> Start(evs[i]) < t[ip].blockedUntil
    ensures var t' := GateRun(cfg, valid, t, evs); ip in t' && t'[ip] == t[ip]
  {
    if |evs| > 0 {
      BlockedRecordStays(cfg, valid, t, evs[..|evs| - 1], ip);
    }
  }

  lemma {:induction false} RunSplits(cfg: Config, valid: Validator, t: Table, a: seq<Event>, b: seq<Event>)
    ensures GateRun(cfg, valid, t, a + b) == GateRun(cfg, valid, GateRun(cfg, valid, t, a), b)
  {
    if |b| == 0 {
      assert a + b == a;
    } else {
      assert (a + b)[..|a + b| - 1] == a + b[..|b| - 1];
      RunSplits(cfg, valid, t, a, b[..|b| - 1]);
    }
  }

  /** Event j counted a failure that reached the threshold. */
  ghost predicate Triggers(cfg: Config, valid: Validator, t: Table, evs: seq<Event>, j: nat, ip: string)
    requires j < |evs|
  {
    && evs[j].Password? && evs[j].ip == ip
    && VerdictAt(cfg, valid, t, evs, j) == Refused
    && OrZero(Lookup(GateRun(cfg, valid, t, evs[..j]), ip)).failCount + 1 >= cfg.maxFailures
  }

  /**
   A block holds for its whole window: after a failure that reaches the threshold, every check and callback for that
   address that starts before failure time + blockDur is barred, whatever else the run does in between.
   */
  lemma BlockHoldsForItsWindow(cfg: Config, valid: Validator, t: Table, evs: seq<Event>, j: nat, i: nat, ip: string)
    requires cfg.Valid() && Timely(evs, 0)
    requires j < i < |evs| && Triggers(cfg, valid, t, evs, j, ip)
    requires Concerns(evs[i], ip) && Start(evs[i]) < evs[j].later + cfg.blockDur
    ensures VerdictAt(cfg, valid, t, evs, i) == Barred
  {
    var t1 := GateRun(cfg, valid, t, evs[..j + 1]);
    assert evs[..j + 1][..j] == evs[..j];
    assert t1[ip].blockedUntil == evs[j].later + cfg.blockDur;
    var between := evs[j + 1..i];
    assert evs[..i] == evs[..j + 1] + between;
    RunSplits(cfg, valid, t, evs[..j + 1], between);
    forall k | 0 <= k < |between| && Timed(between[k])
      ensures Start(between[k]) < t1[ip].blockedUntil
    {
      assert between[k] == evs[j + 1 + k];
    }
    BlockedRecordStays(cfg, valid, t1, between, ip);
  }

  // ---------- who is barred, and who is let in ----------

  /** The failures counted for an address since its record began, and when the last of them was. */
  datatype Past = Past(count: nat, last: int)

  /**
   The past of an address after a run: a refused password counts, an accepted one and a cleaning that comes more than
   the TTL after the last failure, and not while a block lasts, let the record begin anew.
   */
  function Onward(cfg: Config, p: Past, ev: Event, v: Verdict, ip: string): Past {
    match ev
    case Password(q, _, _, later) =>
      if q == ip && v == Refused then Past(p.count + 1, later)
      else if q == ip && v == Accepted then Past(0, 0)
      else p
    case Clean(now) =>
      if p.last < now - cfg.recordTTL && (p.count < cfg.maxFailures || p.last + cfg.blockDur <= now) then Past(0, 0)
      else p
    case _ => p
  }

  ghost function PastOf(cfg: Config, valid: Validator, t: Table, evs: seq<Event>, ip: string): Past {
    if |evs| == 0 then Past(0, 0)
    else
      var n := |evs| - 1;
      Onward(cfg, PastOf(cfg, valid, t, evs[..n], ip), evs[n], VerdictAt(cfg, valid, t, evs, n), ip)
  }

  /** The table has the record that this past leaves. */
  ghost predicate Recorded(cfg: Config, t: Table, ip: string, p: Past) {
    if p.count == 0 then ip !in t
    else
      && ip in t && p.last > 0
      && t[ip] == Rec(p.count, p.last, if p.count >= cfg.maxFailures then p.last + cfg.blockDur else 0)
  }

  lemma OnwardIsRecorded(cfg: Config, valid: Validator, t: Table, p: Past, ev: Event, ip: string)
    requires cfg.Valid() && Recorded(cfg, t, ip, p) && (Timed(ev) ==> 1 <= Start(ev) <= End(ev))
    ensures var (t', v) := GateStep(cfg, valid, t, ev); Recorded(cfg, t', ip, Onward(cfg, p, ev, v, ip))
  {
  }

  lemma {:induction false} PastIsRecorded(cfg: Config, valid: Validator, t: Table, evs: seq<Event>, ip: string)
    requires cfg.Valid() && Timely(evs, 1) && ip !in t
    ensures Recorded(cfg, GateRun(cfg, valid, t, evs), ip, PastOf(cfg, valid, t, evs, ip))
  {
    if |evs| > 0 {
      var before := evs[..|evs| - 1];
      PastIsRecorded(cfg, valid, t, before, ip);
      OnwardIsRecorded(cfg, valid, GateRun(cfg, valid, t, before), PastOf(cfg, valid, t, before, ip),
                       evs[|evs| - 1], ip);
    }
  }

  /**
   Who is barred, exactly: in every run that finds no record of the address, a check or callback is barred if and only
   if the failures counted since the record began reach the threshold and it starts before the block that the last of
   them began has ended.
   */
  lemma BarredIff(cfg: Config, valid: Validator, t: Table, evs: seq<Event>, i: nat, ip: string)
    requires cfg.Valid() && Timely(evs, 1) && ip !in t && i < |evs| && Concerns(evs[i], ip)
    ensures var p := PastOf(cfg, valid, t, evs[..i], ip);
      VerdictAt(cfg, valid, t, evs, i) == Barred <==>
        p.count >= cfg.maxFailures && Start(evs[i]) < p.last + cfg.blockDur
  {
    PastIsRecorded(cfg, valid, t, evs[..i], ip);
  }

  /** A run splits its verdicts as it splits its states. */
  lemma VerdictSplits(cfg: Config, valid: Validator, t: Table, evs: seq<Event>, n: nat, i: nat)
    requires n <= i < |evs|
    ensures VerdictAt(cfg, valid, t, evs, i) == VerdictAt(cfg, valid, GateRun(cfg, valid, t, evs[..n]), evs[n..], i - n)
  {
    assert evs[..i] == evs[..n] + evs[n..][..i - n];
    RunSplits(cfg, valid, t, evs[..n], evs[n..][..i - n]);
  }

  ghost predicate RefusedAt(cfg: Config, valid: Validator, t: Table, evs: seq<Event>, j: nat, ip: string)
    requires j < |evs|
  {
    evs[j].Password? && evs[j].ip == ip && VerdictAt(cfg, valid, t, evs, j) == Refused
  }

  /** After its last failure the past of an address is that failure, or it has begun anew. */
  lemma {:induction false} PastSince(cfg: Config, valid: Validator, t: Table, evs: seq<Event>, j: nat, i: nat,
                                     ip: string)
    requires j < i <= |evs| && RefusedAt(cfg, valid, t, evs, j, ip)
    requires forall k :: j < k < i ==> !RefusedAt(cfg, valid, t, evs, k, ip)
    ensures var p := PastOf(cfg, valid, t, evs[..i], ip); p.count == 0 || p.last == evs[j].later
  {
    assert evs[..i][..i - 1] == evs[..i - 1] && evs[..i][..j] == evs[..j];
    if i > j + 1 {
      PastSince(cfg, valid, t, evs, j, i - 1, ip);
      assert !RefusedAt(cfg, valid, t, evs, i - 1, ip);
    }
  }

  /**
   A block ends: a check or callback that starts at or after the last counted failure + blockDur is not barred,
   whatever was counted before, and neither cleaning nor login is needed for that.
   */
  lemma BlockEnds(cfg: Config, valid: Validator, t: Table, evs: seq<Event>, j: nat, i: nat, ip: string)
    requires cfg.Valid() && Timely(evs, 1) && ip !in t
    requires j < i < |evs| && RefusedAt(cfg, valid, t, evs, j, ip)
    requires forall k :: j < k < i ==> !RefusedAt(cfg, valid, t, evs, k, ip)
    requires Concerns(evs[i], ip) && Start(evs[i]) >= evs[j].later + cfg.blockDur
    ensures VerdictAt(cfg, valid, t, evs, i) != Barred
  {
    PastSince(cfg, valid, t, evs, j, i, ip);
    BarredIff(cfg, valid, t, evs, i, ip);
  }

  /** The failures a run counts against an address. */
  ghost function Failures(cfg: Config, valid: Validator, t: Table, evs: seq<Event>, ip: string): nat {
    if |evs| == 0 then 0
    else
      var last := evs[|evs| - 1];
      Failures(cfg, valid, t, evs[..|evs| - 1], ip)
        + (if last.Password? && last.ip == ip && VerdictAt(cfg, valid, t, evs, |evs| - 1) == Refused then 1 else 0)
  }

  lemma {:induction false} PastIsCounted(cfg: Config, valid: Validator, t: Table, evs: seq<Event>, ip: string)
    ensures PastOf(cfg, valid, t, evs, ip).count <= Failures(cfg, valid, t, evs, ip)
  {
    if |evs| > 0 {
      PastIsCounted(cfg, valid, t, evs[..|evs| - 1], ip);
    }
  }

  /** An address with fewer counted failures than the threshold, in a run that finds no record of it, is not barred. */
  lemma FewFailuresDoNotBar(cfg: Config, valid: Validator, t: Table, evs: seq<Event>, i: nat, ip: string)
    requires cfg.Valid() && Timely(evs, 1) && ip !in t && i < |evs| && Concerns(evs[i], ip)
    requires Failures(cfg, valid, t, evs[..i], ip) < cfg.maxFailures
    ensures VerdictAt(cfg, valid, t, evs, i) != Barred
  {
    PastIsCounted(cfg, valid, t, evs[..i], ip);
    BarredIff(cfg, valid, t, evs, i, ip);
  }

  /** An accepted password clears the count: from any table, only the failures counted after it can bar the address. */
  lemma AcceptanceClears(cfg: Config, valid: Validator, t: Table, evs: seq<Event>, j: nat, i: nat, ip: string)
    requires cfg.Valid() && Timely(evs, 1) && j < i < |evs| && Concerns(evs[i], ip)
    requires evs[j].Password? && evs[j].ip == ip && VerdictAt(cfg, valid, t, evs, j) == Accepted
    requires Failures(cfg, valid, GateRun(cfg, valid, t, evs[..j + 1]), evs[j + 1..i], ip) < cfg.maxFailures
    ensures VerdictAt(cfg, valid, t, evs, i) != Barred
  {
    var t1, rest := GateRun(cfg, valid, t, evs[..j + 1]), evs[j + 1..];
    assert evs[..j + 1][..j] == evs[..j];
    VerdictSplits(cfg, valid, t, evs, j + 1, i);
    forall k, l | 0 <= k < l < |rest| && Timed(rest[k]) && Timed(rest[l]) ensures End(rest[k]) <= Start(rest[l]) {
      assert rest[k] == evs[j + 1 + k] && rest[l] == evs[j + 1 + l];
    }
    assert rest[..i - j - 1] == evs[j + 1..i];
    FewFailuresDoNotBar(cfg, valid, t1, rest, i - j - 1, ip);
  }

  /**
   Who is let in, exactly: a password callback is accepted if and only if the address is not barred, the password has
   its 32 bytes of challenge, and the rest is the response to it; it is refused if it is not barred and that fails.
   */
  lemma AcceptedIff(cfg: Config, valid: Validator, t: Table, evs: seq<Event>, i: nat)
    requires i < |evs| && evs[i].Password?
    ensures var v, pass := VerdictAt(cfg, valid, t, evs, i), evs[i].pass;
      && (v == Accepted <==> v != Barred && |pass| >= 32 && valid(pass[..32], pass[32..]))
      && (v == Refused <==> v != Barred && !(|pass| >= 32 && valid(pass[..32], pass[32..])))
  {
  }

  // ---------- the failure rate ----------

  ghost predicate NeverAccepted(cfg: Config, valid: Validator, t: Table, evs: seq<Event>, ip: string) {
    forall i :: 0 <= i < |evs| && evs[i].Password? && evs[i].ip == ip ==> VerdictAt(cfg, valid, t, evs, i) != Accepted
  }

  /** What the records of a table reached from an empty one look like. */
  ghost predicate Sound(cfg: Config, t: Table, clock: int) {
    forall ip :: ip in t ==>
      && 1 <= t[ip].failCount && 0 < t[ip].lastFailAt <= clock
      && t[ip].blockedUntil == if t[ip].failCount >= cfg.maxFailures then t[ip].lastFailAt + cfg.blockDur else ZERO_TIME
  }

  lemma StepIsSound(cfg: Config, valid: Validator, t: Table, ev: Event, clock: int)
    requires cfg.Valid() && 0 < clock && Sound(cfg, t, clock)
    requires Timed(ev) ==> clock <= Start(ev) <= End(ev)
    ensures Sound(cfg, GateStep(cfg, valid, t, ev).0, if Timed(ev) then End(ev) else clock)
  {
  }

  lemma {:induction false} RunIsSound(cfg: Config, valid: Validator, t: Table, evs: seq<Event>, start: int)
    requires cfg.Valid() && 0 < start && Sound(cfg, t, start) && Timely(evs, start)
    ensures Sound(cfg, GateRun(cfg, valid, t, evs), Clock(evs, start))
  {
    if |evs| > 0 {
      var before := evs[..|evs| - 1];
      LastStarts(evs, start);
      ClockIsLatest(before, start);
      RunIsSound(cfg, valid, t, before, start);
      StepIsSound(cfg, valid, GateRun(cfg, valid, t, before), evs[|evs| - 1], Clock(before, start));
    }
  }

  /** How far a window has come: cleanings passed, waits served, and the time of the last counted failure. */
  datatype Tally = Tally(cleanings: nat, waits: nat, last: int)

  ghost predicate TallyHolds(cfg: Config, t: Table, clock: int, ip: string, start: int, n: nat, y: Tally) {
    n > 0 ==>
      && y.last <= clock
      && y.last - start >= y.cleanings * cfg.recordTTL + y.waits * cfg.blockDur
      && (if ip in t
          then && t[ip].lastFailAt == y.last
               && n <= cfg.maxFailures * y.cleanings + y.waits
                      + (if t[ip].failCount < cfg.maxFailures then t[ip].failCount else cfg.maxFailures)
          else && y.last < clock - cfg.recordTTL
               && n <= cfg.maxFailures * y.cleanings + y.waits + cfg.maxFailures)
  }

  lemma TallyStep(cfg: Config, valid: Validator, t: Table, clock: int, ip: string, start: int, n: nat, y: Tally,
                  ev: Event)
    returns (y': Tally)
    requires cfg.Valid() && 0 < start <= clock && Sound(cfg, t, clock)
    requires TallyHolds(cfg, t, clock, ip, start, n, y)
    requires Timed(ev) ==> clock <= Start(ev) <= End(ev)
    requires ev.Password? && ev.ip == ip ==> GateStep(cfg, valid, t, ev).1 != Accepted
    ensures var (t', v) := GateStep(cfg, valid, t, ev);
      TallyHolds(cfg, t', if Timed(ev) then End(ev) else clock, ip, start,
                 if ev.Password? && ev.ip == ip && v == Refused then n + 1 else n, y')
  {
    y' := y;
    var (t', v) := GateStep(cfg, valid, t, ev);
    if ev.Password? && ev.ip == ip && v == Refused {
      if n == 0 {
        y' := Tally(0, 0, ev.later);
      } else if ip !in t {
        y' := Tally(y.cleanings + 1, y.waits, ev.later);
        Distribute(y.cleanings, cfg.recordTTL);
        Distribute(y.cleanings, cfg.maxFailures);
      } else if t[ip].failCount >= cfg.maxFailures {
        y' := Tally(y.cleanings, y.waits + 1, ev.later);
        Distribute(y.waits, cfg.blockDur);
      } else {
        y' := y.(last := ev.later);
      }
    }
  }

  lemma {:induction false} TallyRun(cfg: Config, valid: Validator, t: Table, evs: seq<Event>, ip: string, start: int)
    returns (y: Tally)
    requires cfg.Valid() && 0 < start && Sound(cfg, t, start) && Timely(evs, start)
    requires NeverAccepted(cfg, valid, t, evs, ip)
    ensures TallyHolds(cfg, GateRun(cfg, valid, t, evs), Clock(evs, start), ip, start,
                       Failures(cfg, valid, t, evs, ip), y)
  {
    if |evs| == 0 {
      y := Tally(0, 0, start);
    } else {
      var before := evs[..|evs| - 1];
      forall i | 0 <= i < |before| && before[i].Password? && before[i].ip == ip
        ensures VerdictAt(cfg, valid, t, before, i) != Accepted
      {
        assert before[..i] == evs[..i];
        assert VerdictAt(cfg, valid, t, evs, i) != Accepted;
      }
      LastStarts(evs, start);
      ClockIsLatest(before, start);
      RunIsSound(cfg, valid, t, before, start);
      y := TallyRun(cfg, valid, t, before, ip, start);
      y := TallyStep(cfg, valid, GateRun(cfg, valid, t, before), Clock(before, start), ip, start,
                     Failures(cfg, valid, t, before, ip), y, evs[|evs| - 1]);
    }
  }

  lemma DivisionBound(k: nat, r: int, span: int)
    requires r >= 1 && k * r <= span
    ensures k <= span / r
  {
    assert span < (span / r + 1) * r;
    MulOrder(span / r + 1, k, r);
  }

  lemma WindowBound(m: int, r: int, d: int, span: nat, k: nat, w: nat)
    requires m >= 1 && r >= 1 && d >= 1
    ensures k * r + w * d <= span ==> m * k + w + m <= m * (1 + span / r) + span / d
    ensures 0 <= m * (1 + span / r) + span / d
  {
    MulOrder(0, k, r);
    MulOrder(0, w, d);
    MulOrder(0, 1 + span / r, m);
    if k * r + w * d <= span {
      DivisionBound(k, r, span);
      DivisionBound(w, d, span);
      MulOrder(k, span / r, m);
      Distribute(span / r, m);
    }
  }

  /**
   Failure-rate bound. In any window [start, start + span] of any run from an empty blocker, an address that is never
   accepted has at most maxFailures * (1 + span / recordTTL) + span / blockDur failures counted against it.
   */
  lemma FailureRate(cfg: Config, valid: Validator, before: seq<Event>, window: seq<Event>, ip: string, start: int,
                    span: nat)
    requires cfg.Valid() && Timely(before, 1) && Clock(before, 1) <= start && Timely(window, start)
    requires Clock(window, start) <= start + span
    requires NeverAccepted(cfg, valid, GateRun(cfg, valid, map[], before), window, ip)
    ensures Failures(cfg, valid, GateRun(cfg, valid, map[], before), window, ip)
         <= cfg.maxFailures * (1 + span / cfg.recordTTL) + span / cfg.blockDur
  {
    var t := GateRun(cfg, valid, map[], before);
    ClockIsLatest(before, 1);
    RunIsSound(cfg, valid, map[], before, 1);
    var y := TallyRun(cfg, valid, t, window, ip, start);
    WindowBound(cfg.maxFailures, cfg.recordTTL, cfg.blockDur, span, y.cleanings, y.waits);
  }

  // ---------- the same door over the cached blocker ----------

  ghost function CachedGateStep(cfg: Config, valid: Validator, c: Cached, ev: Event): (Cached, Verdict) {
    match ev
    case PreCheck(ip, now) =>
      var (c1, a) := CachedStep(cfg, c, IsBlocked(ip, now));
      (c1, if a.yes then Barred else Proceed)
    case Password(ip, pass, now, later) =>
      var (c1, a) := CachedStep(cfg, c, IsBlocked(ip, now));
      if a.yes then (c1, Barred)
      else if Good(valid, pass) then (CachedStep(cfg, c1, ResetFailure(ip)).0, Accepted)
      else (CachedStep(cfg, c1, RecordFailure(ip, later)).0, Refused)
    case Count(now) => (c, Counted(CachedStep(cfg, c, BlockedCount(now)).1.n))
    case Clean(now) => (CachedStep(cfg, c, CleanExpired(now)).0, Quiet)
    case Restart => (CachedStep(cfg, c, Call.Restart).0, Quiet)
  }

  ghost function CachedGateRun(cfg: Config, valid: Validator, c: Cached, evs: seq<Event>): Cached {
    if |evs| == 0 then c
    else CachedGateStep(cfg, valid, CachedGateRun(cfg, valid, c, evs[..|evs| - 1]), evs[|evs| - 1]).0
  }

  ghost function CachedVerdictAt(cfg: Config, valid: Validator, c: Cached, evs: seq<Event>, i: nat): Verdict
    requires i < |evs|
  {
    CachedGateStep(cfg, valid, CachedGateRun(cfg, valid, c, evs[..i]), evs[i]).1
  }

  /** Over a disk the bounded cache, with its evictions and restarts, changes no verdict. */
  lemma GateStepRefines(cfg: Config, valid: Validator, c: Cached, ev: Event)
    requires cfg.Valid() && Agree(cfg, c)
    ensures var (c', v) := CachedGateStep(cfg, valid, c, ev);
      var (t', w) := GateStep(cfg, valid, c.db.value, ev);
      v == w && Agree(cfg, c') && c'.db == Some(t')
  {
    match ev
    case PreCheck(ip, now) => StepRefines(cfg, c, IsBlocked(ip, now));
    case Password(ip, pass, now, later) =>
      StepRefines(cfg, c, IsBlocked(ip, now));
      var c1 := CachedStep(cfg, c, IsBlocked(ip, now)).0;
      StepRefines(cfg, c1, ResetFailure(ip));
      StepRefines(cfg, c1, RecordFailure(ip, later));
    case Count(now) => StepRefines(cfg, c, BlockedCount(now));
    case Clean(now) => StepRefines(cfg, c, CleanExpired(now));
    case Restart => StepRefines(cfg, c, Call.Restart);
  }

  lemma {:induction false} GateRefines(cfg: Config, valid: Validator, c: Cached, evs: seq<Event>)
    requires cfg.Valid() && Agree(cfg, c)
    ensures var c' := CachedGateRun(cfg, valid, c, evs);
      Agree(cfg, c') && c'.db == Some(GateRun(cfg, valid, c.db.value, evs))
  {
    if |evs| > 0 {
      GateRefines(cfg, valid, c, evs[..|evs| - 1]);
      GateStepRefines(cfg, valid, CachedGateRun(cfg, valid, c, evs[..|evs| - 1]), evs[|evs| - 1]);
    }
  }

  lemma SameVerdicts(cfg: Config, valid: Validator, c: Cached, evs: seq<Event>, i: nat)
    requires cfg.Valid() && Agree(cfg, c) && i < |evs|
    ensures CachedVerdictAt(cfg, valid, c, evs, i) == VerdictAt(cfg, valid, c.db.value, evs, i)
  {
    GateRefines(cfg, valid, c, evs[..i]);
    GateStepRefines(cfg, valid, CachedGateRun(cfg, valid, c, evs[..i]), evs[i]);
  }

  /** The block window, for the blocker as built: whatever the cache evicts meanwhile, the address stays barred. */
  lemma BlockHoldsThroughEvictions(cfg: Config, valid: Validator, c: Cached, evs: seq<Event>, j: nat, i: nat,
                                   ip: string)
    requires cfg.Valid() && Agree(cfg, c) && Timely(evs, 0)
    requires j < i < |evs| && Triggers(cfg, valid, c.db.value, evs, j, ip)
    requires Concerns(evs[i], ip) && Start(evs[i]) < evs[j].later + cfg.blockDur
    ensures CachedVerdictAt(cfg, valid, c, evs, j) == Refused && CachedVerdictAt(cfg, valid, c, evs, i) == Barred
  {
    SameVerdicts(cfg, valid, c, evs, j);
    SameVerdicts(cfg, valid, c, evs, i);
    BlockHoldsForItsWindow(cfg, valid, c.db.value, evs, j, i, ip);
  }
  /** Who is barred, exactly, for the blocker as built. */
  lemma BarredIffThroughEvictions(cfg: Config, valid: Validator, c: Cached, evs: seq<Event>, i: nat, ip: string)
    requires cfg.Valid() && Agree(cfg, c) && Timely(evs, 1) && ip !in c.db.value
    requires i < |evs| && Concerns(evs[i], ip)
    ensures var p := PastOf(cfg, valid, c.db.value, evs[..i], ip);
      CachedVerdictAt(cfg, valid, c, evs, i) == Barred <==>
        p.count >= cfg.maxFailures && Start(evs[i]) < p.last + cfg.blockDur
  {
    SameVerdicts(cfg, valid, c, evs, i);
    BarredIff(cfg, valid, c.db.value, evs, i, ip);
  }
}
