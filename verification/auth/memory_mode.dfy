/**
 Memory-only mode of pkg/auth/blocker.go (no database): the bounded cache is all there is, and an evicted record is
 forgotten. It may then fail to block, but it never blocks an address that an unbounded blocker would let in; and it is
 exact as long as no more addresses fail than the cache holds.
 */
module MemoryMode {
  import opened Basics
  import opened Options
  import opened Records
  import opened Lru
  import opened BlockerSpec

  /** Every cached record is a younger, never a stricter, copy of the unbounded blocker's record. */
  ghost predicate Under(cfg: Config, c: Cached, t: Table) {
    && c.db == None && Wellformed(cfg.lruSize, c.view)
    && forall q :: Find(c.view, q).Some? ==> q in t && Milder(cfg, Find(c.view, q).value, t[q])
  }

  predicate Milder(cfg: Config, r: Rec, s: Rec) {
    && 0 <= r.failCount <= s.failCount
    && 0 <= r.blockedUntil <= s.blockedUntil
    && (r.failCount < cfg.maxFailures ==> r.blockedUntil == ZERO_TIME)
  }

  lemma RecordUnder(cfg: Config, c: Cached, t: Table, ip: string, now: int)
    requires cfg.Valid() && Under(cfg, c, t) && 0 <= now
    requires forall q :: q in t ==> 0 <= t[q].failCount && 0 <= t[q].blockedUntil
    ensures Under(cfg, CachedStep(cfg, c, RecordFailure(ip, now)).0,
                  SimpleStep(cfg, false, t, RecordFailure(ip, now)).0)
  {
    var (c1, r) := Fetch(cfg.lruSize, c, ip);
    var c' := CachedStep(cfg, c, RecordFailure(ip, now)).0;
    var t' := SimpleStep(cfg, false, t, RecordFailure(ip, now)).0;
    TouchFind(cfg.lruSize, c.view, ip, ip);
    InsertFind(cfg.lruSize, c1.view, ip, Failed(cfg, OrZero(r), now), ip);
    forall q
      ensures Find(c'.view, q).Some? ==> q in t' && Milder(cfg, Find(c'.view, q).value, t'[q])
    {
      TouchFind(cfg.lruSize, c.view, ip, q);
      InsertFind(cfg.lruSize, c1.view, ip, Failed(cfg, OrZero(r), now), q);
    }
  }

  lemma StepUnder(cfg: Config, c: Cached, t: Table, call: Call)
    requires cfg.Valid() && Under(cfg, c, t) && (HasTime(call) ==> 0 <= call.now)
    requires forall q :: q in t ==> 0 <= t[q].failCount && 0 <= t[q].blockedUntil
    ensures var (c', a) := CachedStep(cfg, c, call);
      var (t', b) := SimpleStep(cfg, false, t, call);
      && Under(cfg, c', t')
      && (forall q :: q in t' ==> 0 <= t'[q].failCount && 0 <= t'[q].blockedUntil)
      && if call.IsBlocked? then a.yes ==> b.yes else a == b
  {
    match call
    case RecordFailure(ip, now) => RecordUnder(cfg, c, t, ip, now);
    case ResetFailure(ip) =>
      WithoutKeys(c.view, ip);
      forall q { WithoutFind(c.view, ip, q); }
    case IsBlocked(ip, now) =>
      TouchFind(cfg.lruSize, c.view, ip, ip);
      forall q
        ensures Find(Touch(c.view, ip), q) == Find(c.view, q)
      {
        TouchFind(cfg.lruSize, c.view, ip, q);
      }
    case BlockedCount(now) =>
    case CleanExpired(now) =>
    case Restart =>
  }

  lemma {:induction false} RunUnder(cfg: Config, calls: seq<Call>)
    requires cfg.Valid() && forall i :: 0 <= i < |calls| && HasTime(calls[i]) ==> 0 <= calls[i].now
    ensures var t := SimpleRun(cfg, false, map[], calls).0;
      && Under(cfg, CachedRun(cfg, Cached(None, []), calls).0, t)
      && (forall q :: q in t ==> 0 <= t[q].failCount && 0 <= t[q].blockedUntil)
  {
    if |calls| > 0 {
      var before := calls[..|calls| - 1];
      RunUnder(cfg, before);
      StepUnder(cfg, CachedRun(cfg, Cached(None, []), before).0, SimpleRun(cfg, false, map[], before).0,
                calls[|calls| - 1]);
    }
  }

  /** Whatever the memory-only blocker reports blocked after a run, the unbounded blocker reports blocked too. */
  lemma NeverOverBlocks(cfg: Config, calls: seq<Call>, ip: string, now: int)
    requires cfg.Valid() && 0 <= now && forall i :: 0 <= i < |calls| && HasTime(calls[i]) ==> 0 <= calls[i].now
    ensures CachedStep(cfg, CachedRun(cfg, Cached(None, []), calls).0, IsBlocked(ip, now)).1.yes
        ==> SimpleStep(cfg, false, SimpleRun(cfg, false, map[], calls).0, IsBlocked(ip, now)).1.yes
  {
    RunUnder(cfg, calls);
    StepUnder(cfg, CachedRun(cfg, Cached(None, []), calls).0, SimpleRun(cfg, false, map[], calls).0,
              IsBlocked(ip, now));
  }

  // ---------- exact while everything fits ----------

  /** The addresses that have failed in a run. */
  ghost function FailedIps(calls: seq<Call>): set<string> {
    set i | 0 <= i < |calls| && calls[i].RecordFailure? :: calls[i].ip
  }

  /** Cache and unbounded table hold the same records. */
  ghost predicate Same(cfg: Config, c: Cached, t: Table) {
    c.db == None && Wellformed(cfg.lruSize, c.view) && forall q :: Find(c.view, q) == Lookup(t, q)
  }

  lemma InsertFits(cap: int, l: seq<Entry<Rec>>, ip: string, r: Rec, q: string, seen: set<string>)
    requires cap >= 1 && Wellformed(cap, l) && Keys(l) + {ip} <= seen && |seen| <= cap
    ensures Find(Insert(cap, l, ip, r), q) == if q == ip then Some(r) else Find(l, q)
  {
    var w := Without(l, ip);
    WithoutKeys(l, ip);
    WithoutFind(l, ip, q);
    FrontKeys(Entry(ip, r), w);
    KeysSize([Entry(ip, r)] + w);
    SetSize(Keys([Entry(ip, r)] + w), seen);
  }

  lemma StepSame(cfg: Config, c: Cached, t: Table, call: Call, seen: set<string>)
    requires cfg.Valid() && Same(cfg, c, t) && t.Keys <= seen && |seen| <= cfg.lruSize
    requires call.RecordFailure? ==> call.ip in seen
    ensures var (c', a) := CachedStep(cfg, c, call);
      var (t', b) := SimpleStep(cfg, false, t, call);
      Same(cfg, c', t') && t'.Keys <= seen && a == b
  {
    var (c', a) := CachedStep(cfg, c, call);
    var (t', b) := SimpleStep(cfg, false, t, call);
    if call.ResetFailure? {
      WithoutKeys(c.view, call.ip);
      forall q { WithoutFind(c.view, call.ip, q); }
    } else if call.IsBlocked? || call.RecordFailure? {
      var ip := call.ip;
      var c1 := Fetch(cfg.lruSize, c, ip).0;
      TouchFind(cfg.lruSize, c.view, ip, ip);
      forall q
        ensures Find(c1.view, q) == Find(c.view, q)
        ensures q in Keys(c1.view) <==> q in t
      {
        TouchFind(cfg.lruSize, c.view, ip, q);
        FindKeys(c1.view, q);
      }
      if call.RecordFailure? {
        var r := t'[ip];
        InsertFind(cfg.lruSize, c1.view, ip, r, ip);
        forall q
          ensures Find(c'.view, q) == Lookup(t', q)
        {
          InsertFits(cfg.lruSize, c1.view, ip, r, q, seen);
        }
      }
    }
  }

  /** While at most lruSize addresses have failed, the memory-only blocker answers exactly like the unbounded one. */
  lemma {:induction false} ExactWhileItFits(cfg: Config, calls: seq<Call>, seen: set<string>)
    requires cfg.Valid() && FailedIps(calls) <= seen && |seen| <= cfg.lruSize
    ensures var (c, answers) := CachedRun(cfg, Cached(None, []), calls);
      var (t, answers') := SimpleRun(cfg, false, map[], calls);
      answers == answers' && Same(cfg, c, t) && t.Keys <= seen
  {
    if |calls| > 0 {
      var before := calls[..|calls| - 1];
      forall ip | ip in FailedIps(before) ensures ip in FailedIps(calls) {
        var i :| 0 <= i < |before| && before[i].RecordFailure? && before[i].ip == ip;
        assert calls[i] == before[i];
      }
      ExactWhileItFits(cfg, before, seen);
      var last := calls[|calls| - 1];
      if last.RecordFailure? {
        assert last.ip in FailedIps(calls);
      }
      StepSame(cfg, CachedRun(cfg, Cached(None, []), before).0, SimpleRun(cfg, false, map[], before).0, last, seen);
    }
  }

  // ---------- and no longer ----------

  /** One failure each, all at one time, of these addresses. */
  function Failures(ips: seq<string>, now: int): (calls: seq<Call>)
    ensures |calls| == |ips| && forall i :: 0 <= i < |ips| ==> calls[i] == RecordFailure(ips[i], now)
  {
    seq(|ips|, i requires 0 <= i < |ips| => RecordFailure(ips[i], now))
  }

  /** The same address k times. */
  function Again(ip: string, k: nat): (ips: seq<string>)
    ensures |ips| == k && forall i :: 0 <= i < k ==> ips[i] == ip
  {
    seq(k, _ => ip)
  }

  /** A run of failures taken apart before the last one. */
  lemma LastFailure(cfg: Config, ips: seq<string>, ip: string, now: int)
    ensures var c := CachedRun(cfg, Cached(None, []), Failures(ips, now)).0;
      CachedRun(cfg, Cached(None, []), Failures(ips + [ip], now)).0 == CachedStep(cfg, c, RecordFailure(ip, now)).0
    ensures var t := SimpleRun(cfg, false, map[], Failures(ips, now)).0;
      SimpleRun(cfg, false, map[], Failures(ips + [ip], now)).0 == SimpleStep(cfg, false, t, RecordFailure(ip, now)).0
  {
    assert Failures(ips + [ip], now)[..|ips|] == Failures(ips, now);
  }

  lemma FailsAlone(cfg: Config, ip: string, s: Rec, now: int)
    requires cfg.Valid()
    ensures CachedStep(cfg, Cached(None, []), RecordFailure(ip, now)).0
         == Cached(None, [Entry(ip, Failed(cfg, ZERO_REC, now))])
    ensures CachedStep(cfg, Cached(None, [Entry(ip, s)]), RecordFailure(ip, now)).0
         == Cached(None, [Entry(ip, Failed(cfg, s, now))])
  {
    var one := [Entry(ip, s)];
    assert one[1..] == [] && [Entry(ip, s)] + [] == one;
    StepAt(cfg.lruSize, one, 0, ip, Failed(cfg, s, now));
    assert Cut(one, 0) == [];
  }

  /** This run of failures of one address leaves one record, the same in the cache and in the table. */
  ghost predicate LeavesOne(cfg: Config, ip: string, ips: seq<string>, now: int, r: Rec) {
    && CachedRun(cfg, Cached(None, []), Failures(ips, now)).0 == Cached(None, [Entry(ip, r)])
    && SimpleRun(cfg, false, map[], Failures(ips, now)).0 == map[ip := r]
  }

  lemma OnceAlone(cfg: Config, ip: string, now: int)
    requires cfg.Valid()
    ensures LeavesOne(cfg, ip, [ip], now, Failed(cfg, ZERO_REC, now))
  {
    assert Failures([], now) == [] && [] + [ip] == [ip];
    LastFailure(cfg, [], ip, now);
    FailsAlone(cfg, ip, ZERO_REC, now);
  }

  lemma OnceMoreAlone(cfg: Config, ip: string, ips: seq<string>, s: Rec, now: int)
    requires cfg.Valid() && LeavesOne(cfg, ip, ips, now, s)
    ensures LeavesOne(cfg, ip, ips + [ip], now, Failed(cfg, s, now))
  {
    LastFailure(cfg, ips, ip, now);
    FailsAlone(cfg, ip, s, now);
  }

  /** Failures of one address alone leave one record, in the cache and in the table, with their count. */
  lemma {:induction false} AloneInTheCache(cfg: Config, ip: string, k: nat, now: int) returns (r: Rec)
    requires cfg.Valid() && k >= 1
    ensures LeavesOne(cfg, ip, Again(ip, k), now, r)
    ensures r.failCount == k && (k >= cfg.maxFailures ==> r.blockedUntil == now + cfg.blockDur)
  {
    if k == 1 {
      r := Failed(cfg, ZERO_REC, now);
      OnceAlone(cfg, ip, now);
      assert Again(ip, 1) == [ip];
    } else {
      var s := AloneInTheCache(cfg, ip, k - 1, now);
      r := Failed(cfg, s, now);
      OnceMoreAlone(cfg, ip, Again(ip, k - 1), s, now);
      assert Again(ip, k) == Again(ip, k - 1) + [ip];
    }
  }

  /** While others fail, once each, the address slides to the end of the list, and at the capacity out of it. */
  lemma {:induction false} Flooded(cfg: Config, ip: string, others: seq<string>, now: int) returns (r: Rec)
    requires cfg.Valid() && |others| <= cfg.lruSize && ip !in others
    requires forall i, j :: 0 <= i < j < |others| ==> others[i] != others[j]
    ensures var ips := Again(ip, cfg.maxFailures) + others;
      var c := CachedRun(cfg, Cached(None, []), Failures(ips, now)).0;
      var t := SimpleRun(cfg, false, map[], Failures(ips, now)).0;
      && c.db == None && Wellformed(cfg.lruSize, c.view)
      && (forall q :: q in Keys(c.view) ==> q == ip || q in others)
      && (if |others| == cfg.lruSize then ip !in Keys(c.view)
          else |c.view| == |others| + 1 && c.view[|others|].key == ip)
      && ip in t && t[ip] == r && r.blockedUntil == now + cfg.blockDur
  {
    var first := Again(ip, cfg.maxFailures);
    if |others| == 0 {
      assert first + others == first;
      r := AloneInTheCache(cfg, ip, cfg.maxFailures, now);
      FrontKeys(Entry(ip, r), []);
    } else {
      var before, last := others[..|others| - 1], others[|others| - 1];
      assert first + others == first + before + [last];
      r := Flooded(cfg, ip, before, now);
      LastFailure(cfg, first + before, last, now);
      FloodStep(cfg, CachedRun(cfg, Cached(None, []), Failures(first + before, now)).0, ip, last, now);
    }
  }

  lemma FloodStep(cfg: Config, c: Cached, ip: string, last: string, now: int)
    requires cfg.Valid() && c.db == None && Wellformed(cfg.lruSize, c.view) && last !in Keys(c.view)
    requires |c.view| >= 1 && c.view[|c.view| - 1].key == ip
    ensures var v := CachedStep(cfg, c, RecordFailure(last, now)).0.view;
      && Wellformed(cfg.lruSize, v) && Keys(v) <= Keys(c.view) + {last}
      && (if |c.view| == cfg.lruSize then ip !in Keys(v)
          else |v| == |c.view| + 1 && v[|c.view|].key == ip)
  {
    var n := |c.view|;
    KeyAbsent(c.view, last);
    var r := Failed(cfg, ZERO_REC, now);
    StepAbsent(cfg.lruSize, c.view, last, r);
    InsertFind(cfg.lruSize, c.view, last, r, ip);
    FrontKeys(Entry(last, r), c.view);
    if n == cfg.lruSize {
      DropLastKeys([Entry(last, r)] + c.view);
    }
  }

  /**
   One address more than the cache holds is enough to lose a block, for every capacity and every threshold: after
   enough failures of one address and one failure each of as many others as the cache holds, it is let in again.
   */
  lemma EvictionForgets(cfg: Config, ip: string, others: seq<string>, now: int)
    requires cfg.Valid() && |others| == cfg.lruSize && ip !in others && 0 <= now
    requires forall i, j :: 0 <= i < j < |others| ==> others[i] != others[j]
    ensures var calls := Failures(Again(ip, cfg.maxFailures) + others, now);
      && !CachedStep(cfg, CachedRun(cfg, Cached(None, []), calls).0, IsBlocked(ip, now)).1.yes
      && SimpleStep(cfg, false, SimpleRun(cfg, false, map[], calls).0, IsBlocked(ip, now)).1.yes
  {
    var r := Flooded(cfg, ip, others, now);
    KeyAbsent(CachedRun(cfg, Cached(None, []), Failures(Again(ip, cfg.maxFailures) + others, now)).0.view, ip);
  }

  /** The two blockers answer the whole run alike. */
  ghost predicate Exact(cfg: Config, calls: seq<Call>) {
    CachedRun(cfg, Cached(None, []), calls).1 == SimpleRun(cfg, false, map[], calls).1
  }

  /** As many different addresses as one likes. */
  lemma Names(n: nat) returns (names: seq<string>)
    ensures |names| == n && forall i, j :: 0 <= i < j < n ==> names[i] != names[j]
    ensures "" !in names
  {
    names := seq(n, i requires 0 <= i < n => seq(i + 1, _ => 'x'));
    assert forall i :: 0 <= i < n ==> |names[i]| == i + 1;
  }

  /** A run in which one address more fails than the cache holds, and the answers part. */
  lemma OneTooMany(cfg: Config) returns (calls: seq<Call>)
    requires cfg.Valid()
    ensures !Exact(cfg, calls) && |FailedIps(calls)| <= cfg.lruSize + 1
  {
    var others := Names(cfg.lruSize);
    var before := Failures(Again("", cfg.maxFailures) + others, 0);
    EvictionForgets(cfg, "", others, 0);
    calls := before + [IsBlocked("", 0)];
    assert calls[..|before|] == before;
    var all := {""} + set ip | ip in others;
    assert FailedIps(calls) <= all;
    SetSize(FailedIps(calls), all);
    UnionBound({""}, set ip | ip in others);
    SeqSetSize(others);
    AnswersAsMany(cfg, before);
    assert CachedRun(cfg, Cached(None, []), calls).1[|before|] != SimpleRun(cfg, false, map[], calls).1[|before|];
  }

  lemma {:induction false} SeqSetSize(s: seq<string>)
    ensures |set x | x in s| <= |s|
  {
    if |s| > 0 {
      SeqSetSize(s[1..]);
      assert (set x | x in s) == {s[0]} + set x | x in s[1..];
      UnionBound({s[0]}, set x | x in s[1..]);
    } else {
      assert (set x | x in s) == {};
    }
  }

  lemma {:induction false} AnswersAsMany(cfg: Config, calls: seq<Call>)
    ensures |CachedRun(cfg, Cached(None, []), calls).1| == |SimpleRun(cfg, false, map[], calls).1| == |calls|
  {
    if |calls| > 0 {
      AnswersAsMany(cfg, calls[..|calls| - 1]);
    }
  }

  /**
   Exactly how far the memory-only blocker can be trusted: all runs in which at most n distinct addresses fail are
   answered like the unbounded blocker's if and only if the cache holds n.
   */
  lemma ExactIff(cfg: Config, n: nat)
    requires cfg.Valid()
    ensures (forall calls :: |FailedIps(calls)| <= n ==> Exact(cfg, calls)) <==> n <= cfg.lruSize
  {
    if n <= cfg.lruSize {
      forall calls | |FailedIps(calls)| <= n ensures Exact(cfg, calls) {
        ExactWhileItFits(cfg, calls, FailedIps(calls));
      }
    } else {
      var calls := OneTooMany(cfg);
      assert |FailedIps(calls)| <= n && !Exact(cfg, calls);
    }
  }
}
