/**
 The password callback and the pre-handshake check of pkg/server/server.go over the real blocker object, and a whole
 run of them: the bounded cache, its shared records and its restarts give the verdicts of one plain map.
 */
module Gatekeepers {
  import opened Options
  import opened Records
  import opened BlockerSpec
  import opened Blockers
  import opened Gate

  class Gatekeeper {
    const valid: Validator
    const blocker: AuthBlocker?

    constructor (valid: Validator, blocker: AuthBlocker?)
      ensures this.valid == valid && this.blocker == blocker
    {
      this.valid, this.blocker := valid, blocker;
    }

    ghost predicate Ready()
      reads this, if blocker == null then {} else blocker.Repr(), blocker, if blocker == null then null else blocker.lru
    {
      blocker != null ==> blocker.Valid()
    }

    /** handleConnection, before the SSH handshake. */
    method PreHandshake(ip: string, now: int) returns (v: Verdict)
      requires Ready()
      modifies if blocker == null then {} else blocker.lru.Repr
      ensures Ready() && (blocker == null ==> v == Proceed) && (v == Barred || v == Proceed)
      ensures blocker != null ==>
        var r := Fetch(blocker.cfg.lruSize, old(blocker.State()), ip).1;
        v == Barred <==> r.Some? && r.value.blockedUntil != 0 && now < r.value.blockedUntil
      ensures blocker != null ==>
        && fresh(blocker.lru.Repr - old(blocker.lru.Repr))
        && (blocker.State(), v) == CachedGateStep(blocker.cfg, valid, old(blocker.State()), Event.PreCheck(ip, now))
    {
      v := Proceed;
      if blocker != null {
        var barred := blocker.IsBlocked(ip, now);
        if barred {
          v := Barred;
        }
      }
    }

    /** The PasswordCallback closure of Start. */
    method PasswordCallback(ip: string, pass: string, now: int, later: int) returns (v: Verdict)
      requires Ready()
      modifies if blocker == null then {} else blocker.Repr()
      ensures Ready() && (blocker == null ==> v != Barred)
      ensures v == Accepted <==> v != Barred && |pass| >= 32 && valid(pass[..32], pass[32..])
      ensures v == Refused <==> v != Barred && !(|pass| >= 32 && valid(pass[..32], pass[32..]))
      ensures blocker != null ==>
        var r := Fetch(blocker.cfg.lruSize, old(blocker.State()), ip).1;
        v == Barred <==> r.Some? && r.value.blockedUntil != 0 && now < r.value.blockedUntil
      ensures blocker != null ==>
        && fresh(blocker.lru.Repr - old(blocker.lru.Repr))
        && (blocker.State(), v)
           == CachedGateStep(blocker.cfg, valid, old(blocker.State()), Event.Password(ip, pass, now, later))
    {
      if blocker != null {
        var barred := blocker.IsBlocked(ip, now);
        if barred {
          return Barred;
        }
      }
      if |pass| < 32 {
        if blocker != null {
          blocker.RecordFailure(ip, later);
        }
        return Refused;
      }
      var challenge := pass[..32];
      var response := pass[32..];
      if !valid(challenge, response) {
        if blocker != null {
          blocker.RecordFailure(ip, later);
        }
        return Refused;
      }
      if blocker != null {
        blocker.ResetFailure(ip);
      }
      return Accepted;
    }
  }

  /**
   A server's life at the door: any sequence of connections, callbacks, status calls, cleanings and restarts, started on
   any disk. The verdicts are those of the plain map, whatever the cache size.
   */
  method Serve(config: Config, valid: Validator, disk: Table, evs: seq<Event>)
    returns (verdicts: seq<Verdict>)
    ensures verdicts == Verdicts(config.Normalized(), valid, disk, evs, |evs|)
  {
    var blocker := new AuthBlocker(config, true, disk);
    verdicts := ServeAll(config, valid, blocker, evs);
    VerdictsAgree(config.Normalized(), valid, Cached(Some(disk), []), evs);
  }

  method ServeAll(config: Config, valid: Validator, blocker: AuthBlocker, evs: seq<Event>)
    returns (verdicts: seq<Verdict>)
    requires blocker.Valid() && blocker.hasDb && blocker.cfg == config.Normalized()
    modifies blocker.Repr()
    ensures verdicts == CachedVerdicts(blocker.cfg, valid, old(blocker.State()), evs)
    decreases |evs|
  {
    if |evs| == 0 {
      return [];
    }
    var next, v := ServeOne(config, valid, blocker, evs[0]);
    var rest := ServeAll(config, valid, next, evs[1..]);
    verdicts := [v] + rest;
  }

  ghost function CachedVerdicts(cfg: Config, valid: Validator, c: Cached, evs: seq<Event>): seq<Verdict>
    decreases |evs|
  {
    if |evs| == 0 then []
    else
      var (c', v) := CachedGateStep(cfg, valid, c, evs[0]);
      [v] + CachedVerdicts(cfg, valid, c', evs[1..])
  }

  /** Event by event from the front, the cached machine gives the verdicts of the table's run. */
  lemma {:induction false} VerdictsAgree(cfg: Config, valid: Validator, c: Cached, evs: seq<Event>)
    requires cfg.Valid() && Agree(cfg, c)
    ensures CachedVerdicts(cfg, valid, c, evs) == Verdicts(cfg, valid, c.db.value, evs, |evs|)
    decreases |evs|
  {
    if |evs| > 0 {
      var (c', v) := CachedGateStep(cfg, valid, c, evs[0]);
      GateStepRefines(cfg, valid, c, evs[0]);
      VerdictsAgree(cfg, valid, c', evs[1..]);
      forall i | 0 <= i < |evs|
        ensures VerdictAt(cfg, valid, c.db.value, evs, i)
             == if i == 0 then v else VerdictAt(cfg, valid, c'.db.value, evs[1..], i - 1)
      {
        if i > 0 {
          assert evs[..i] == evs[..1] + evs[1..][..i - 1];
          RunSplits(cfg, valid, c.db.value, evs[..1], evs[1..][..i - 1]);
        }
      }
    }
  }

  method ServeOne(config: Config, valid: Validator, blocker: AuthBlocker, ev: Event)
    returns (next: AuthBlocker, v: Verdict)
    requires blocker.Valid() && blocker.hasDb && blocker.cfg == config.Normalized()
    modifies blocker.Repr()
    ensures next.Valid() && next.hasDb && next.cfg == config.Normalized()
    ensures fresh(next.Repr() - old(blocker.Repr()))
    ensures (next.State(), v) == CachedGateStep(blocker.cfg, valid, old(blocker.State()), ev)
  {
    next := blocker;
    v := Quiet;
    match ev
    case PreCheck(ip, now) =>
      var door := new Gatekeeper(valid, blocker);
      v := door.PreHandshake(ip, now);
    case Password(ip, pass, now, later) =>
      var door := new Gatekeeper(valid, blocker);
      v := door.PasswordCallback(ip, pass, now, later);
    case Count(now) =>
      var n := blocker.BlockedCount(now);
      v := Counted(n);
    case Clean(now) =>
      blocker.CleanExpired(now);
    case Restart =>
      next := new AuthBlocker(config, true, blocker.disk);
  }
}
