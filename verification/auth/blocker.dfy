/**
 AuthBlocker of pkg/auth/blocker.go as the class it is there: a disk of record values and a bounded cache of shared,
 mutable record objects. Every method is proved to do to `State()` what BlockerSpec.CachedStep says.
 */
module Blockers {
  import opened Options
  import opened Records
  import opened Lru
  import opened LruCaches
  import opened BlockerSpec

  /** A list of record objects, read as a list of their present values. */
  ghost function Values(l: seq<Entry<FailureRecord>>): (v: seq<Entry<Rec>>)
    reads set e | e in l :: e.val
    ensures |v| == |l| && forall i :: 0 <= i < |l| ==> v[i] == Entry(l[i].key, l[i].val.Value())
  {
    seq(|l|, i requires 0 <= i < |l| reads set e | e in l :: e.val => Entry(l[i].key, l[i].val.Value()))
  }

  lemma {:induction false} ValuesFind(l: seq<Entry<FailureRecord>>, k: string)
    ensures Keys(Values(l)) == Keys(l) && (Distinct(Values(l)) <==> Distinct(l))
    ensures Find(Values(l), k) == match Find(l, k) case None => None case Some(o) => Some(o.Value())
  {
    if |l| > 0 {
      ValuesFind(l[1..], k);
      assert Values(l)[1..] == Values(l[1..]);
    }
  }

  lemma {:induction false} ValuesWithout(l: seq<Entry<FailureRecord>>, k: string)
    ensures Values(Without(l, k)) == Without(Values(l), k)
  {
    if |l| > 0 {
      ValuesWithout(l[1..], k);
      assert Values(l)[1..] == Values(l[1..]);
    }
  }

  lemma ValuesTouch(l: seq<Entry<FailureRecord>>, k: string)
    ensures Values(Touch(l, k)) == Touch(Values(l), k)
  {
    ValuesFind(l, k);
    ValuesWithout(l, k);
  }

  lemma ValuesInsert(cap: int, l: seq<Entry<FailureRecord>>, k: string, o: FailureRecord)
    ensures Values(Insert(cap, l, k, o)) == Insert(cap, Values(l), k, o.Value())
  {
    ValuesFind(l, k);
    ValuesWithout(l, k);
    var r := [Entry(k, o)] + Without(l, k);
    assert Values(r) == [Entry(k, o.Value())] + Without(Values(l), k);
  }

  /** Two lists that differ only in the value of k become the same list when k is put. */
  lemma {:induction false} InsertForgets(cap: int, a: seq<Entry<Rec>>, b: seq<Entry<Rec>>, k: string, v: Rec)
    requires |a| == |b|
    requires forall i :: 0 <= i < |a| ==> a[i].key == b[i].key && (a[i].key != k ==> a[i] == b[i])
    ensures Keys(a) == Keys(b) && Without(a, k) == Without(b, k)
    ensures Insert(cap, a, k, v) == Insert(cap, b, k, v)
  {
    if |a| > 0 {
      InsertForgets(cap, a[1..], b[1..], k, v);
    }
  }

  lemma {:induction false} RecsWithout(l: seq<Entry<FailureRecord>>, k: string, i: nat)
    requires i < |l| && l[i].key != k
    ensures l[i].val in Recs(Without(l, k))
  {
    var w := Without(l[1..], k);
    assert ([l[0]] + w)[1..] == w;
    if i > 0 {
      RecsWithout(l[1..], k, i - 1);
    }
  }

  class AuthBlocker {
    const cfg: Config
    const hasDb: bool
    var disk: Table
    const lru: LruCache

    ghost predicate Valid()
      reads this, lru, lru.Repr
    {
      cfg.Valid() && lru.Valid() && lru.capacity == cfg.lruSize && this !in lru.Repr
    }

    ghost function Repr(): set<object>
      reads this, lru
    {
      {this} + lru.Repr
    }

    ghost function State(): Cached
      reads this, lru, set e | e in lru.view :: e.val
    {
      Cached(if hasDb then Some(disk) else None, Values(lru.view))
    }

    constructor (config: Config, hasDb: bool, disk: Table)
      ensures Valid() && fresh(Repr())
      ensures cfg == config.Normalized() && this.hasDb == hasDb
      ensures State() == Cached(if hasDb then Some(disk) else None, [])
    {
      var c := config.Normalized();
      this.cfg, this.hasDb, this.disk := c, hasDb, disk;
      lru := new LruCache(c.lruSize);
    }

    method GetRecord(ip: string) returns (rec: FailureRecord?)
      requires Valid()
      modifies lru.Repr
      ensures Valid() && fresh(lru.Repr - old(lru.Repr)) && lru.Repr >= old(lru.Repr)
      ensures match Find(lru.view, ip) case None => rec == null case Some(o) => rec == o
      ensures State() == Fetch(cfg.lruSize, old(State()), ip).0
      ensures (if rec == null then None else Some(rec.Value())) == Fetch(cfg.lruSize, old(State()), ip).1
    {
      rec := CacheGet(ip);
      if rec != null || !hasDb || ip !in disk {
        return;
      }
      rec := Backfill(ip);
    }

    /** The second half of getRecord: a new object with the record on disk goes into the cache. */
    method Backfill(ip: string) returns (rec: FailureRecord)
      requires Valid() && hasDb && ip in disk
      modifies lru.Repr
      ensures Valid() && fresh(lru.Repr - old(lru.Repr)) && lru.Repr >= old(lru.Repr)
      ensures Find(lru.view, ip) == Some(rec) && rec.Value() == disk[ip]
      ensures State() == old(State()).(view := Insert(cfg.lruSize, old(State()).view, ip, disk[ip]))
    {
      rec := new FailureRecord(disk[ip]);
      lru.OwnRecord(ip);
      CachePut(ip, rec);
    }

    /** lru.get, told about the values. */
    method CacheGet(ip: string) returns (rec: FailureRecord?)
      requires Valid()
      modifies lru`order, lru`view
      ensures Valid()
      ensures match Find(lru.view, ip) case None => rec == null case Some(o) => rec == o
      ensures State() == old(State()).(view := Touch(old(State()).view, ip))
      ensures (if rec == null then None else Some(rec.Value())) == Find(old(State()).view, ip)
    {
      ghost var l, v := lru.view, Values(lru.view);
      lru.ViewIsWellformed();
      ValuesFind(l, ip);
      rec := lru.Get(ip);
      assert Values(l) == v;
      ValuesTouch(l, ip);
      TouchFind(lru.capacity, l, ip, ip);
    }

    /** lru.put, told about the values. */
    method CachePut(ip: string, rec: FailureRecord)
      requires Valid() && rec !in Recs(Without(lru.view, ip))
      modifies lru, lru.items.Values
      ensures Valid() && lru.Repr >= old(lru.Repr) && fresh(lru.Repr - old(lru.Repr) - {rec})
      ensures Find(lru.view, ip) == Some(rec)
      ensures State() == old(State()).(view := Insert(cfg.lruSize, old(State()).view, ip, rec.Value()))
    {
      ghost var l, v := lru.view, Values(lru.view);
      lru.ViewIsWellformed();
      InsertFind(lru.capacity, l, ip, rec, ip);
      lru.Put(ip, rec);
      assert Values(l) == v;
      ValuesInsert(lru.capacity, l, ip, rec);
    }

    method PutRecord(ip: string, rec: FailureRecord)
      modifies this`disk
      ensures disk == if hasDb then old(disk)[ip := rec.Value()] else old(disk)
    {
      if hasDb {
        disk := disk[ip := Rec(rec.failCount, rec.lastFailAt, rec.blockedUntil)];
      }
    }

    method DeleteRecord(ip: string)
      modifies this`disk
      ensures disk == if hasDb then old(disk) - {ip} else old(disk)
    {
      if hasDb {
        disk := disk - {ip};
      }
    }

    method IsBlocked(ip: string, now: int) returns (blocked: bool)
      requires Valid()
      modifies lru.Repr
      ensures Valid() && fresh(lru.Repr - old(lru.Repr)) && lru.Repr >= old(lru.Repr)
      ensures State() == CachedStep(cfg, old(State()), Call.IsBlocked(ip, now)).0
      ensures Answer.Blocked(blocked) == CachedStep(cfg, old(State()), Call.IsBlocked(ip, now)).1
      ensures var r := Fetch(cfg.lruSize, old(State()), ip).1;
        blocked <==> r.Some? && r.value.blockedUntil != 0 && now < r.value.blockedUntil
    {
      var rec := GetRecord(ip);
      if rec == null {
        return false;
      }
      blocked := rec.IsBlocked(now);
    }

    /** The middle of RecordFailure: the shared record is changed in place. */
    method Bump(rec: FailureRecord, now: int)
      modifies rec
      ensures rec.Value() == Failed(cfg, old(rec.Value()), now)
    {
      rec.failCount := rec.failCount + 1;
      rec.lastFailAt := now;
      if rec.failCount >= cfg.maxFailures {
        var blocked := rec.IsBlocked(now);
        if blocked {
          rec.blockedUntil := now + cfg.blockDur;
        } else {
          rec.blockedUntil := now + cfg.blockDur;
        }
      }
    }

    method RecordFailure(ip: string, now: int)
      requires Valid()
      modifies this`disk, lru.Repr
      ensures Valid() && fresh(lru.Repr - old(lru.Repr)) && lru.Repr >= old(lru.Repr)
      ensures State() == CachedStep(cfg, old(State()), Call.RecordFailure(ip, now)).0
    {
      var rec := Obtain(ip);
      CountFailure(ip, rec, now);
    }

    /** The record object of the address, which the cache, if it has it, holds under no other; or a new one. */
    method Obtain(ip: string) returns (rec: FailureRecord)
      requires Valid()
      modifies lru.Repr
      ensures Valid() && fresh(lru.Repr - old(lru.Repr)) && lru.Repr >= old(lru.Repr)
      ensures (rec in lru.Repr || fresh(rec)) && rec !in Recs(Without(lru.view, ip))
      ensures State() == Fetch(cfg.lruSize, old(State()), ip).0
      ensures rec.Value() == OrZero(Fetch(cfg.lruSize, old(State()), ip).1)
    {
      var found := GetRecord(ip);
      lru.OwnRecord(ip);
      rec := OrNew(found);
    }

    /** The record that was found, or a zero one. */
    method OrNew(found: FailureRecord?) returns (rec: FailureRecord)
      ensures if found == null then fresh(rec) && rec.Value() == ZERO_REC else rec == found
    {
      if found == null {
        rec := new FailureRecord(ZERO_REC);
      } else {
        rec := found;
      }
    }

    /** The rest of RecordFailure, once the record is at hand: change it in place, write the disk, put the cache. */
    method CountFailure(ip: string, rec: FailureRecord, now: int)
      requires Valid() && rec !in Recs(Without(lru.view, ip))
      modifies this`disk, lru, lru.items.Values, rec
      ensures Valid() && lru.Repr >= old(lru.Repr) && fresh(lru.Repr - old(lru.Repr) - {rec})
      ensures State() == Save(cfg.lruSize, old(State()), ip, Failed(cfg, old(rec.Value()), now))
    {
      BumpAndWrite(ip, rec, now);
      CachePut(ip, rec);
    }

    /** The record changed and on disk, the put still to come. */
    method BumpAndWrite(ip: string, rec: FailureRecord, now: int)
      requires Valid() && rec !in Recs(Without(lru.view, ip))
      modifies this`disk, rec
      ensures rec.Value() == Failed(cfg, old(rec.Value()), now)
      ensures State().db == Store(old(State()).db, ip, rec.Value())
      ensures Insert(cfg.lruSize, State().view, ip, rec.Value())
           == Insert(cfg.lruSize, old(State()).view, ip, rec.Value())
    {
      BumpCached(ip, rec, now);
      PutRecord(ip, rec);
    }

    /** Changing the record of ip in place changes no other cached value; so a put of ip afterwards hides the change. */
    method BumpCached(ip: string, rec: FailureRecord, now: int)
      requires Valid() && rec !in Recs(Without(lru.view, ip))
      modifies rec
      ensures rec.Value() == Failed(cfg, old(rec.Value()), now)
      ensures State().db == old(State()).db
      ensures Insert(cfg.lruSize, State().view, ip, rec.Value())
           == Insert(cfg.lruSize, old(State()).view, ip, rec.Value())
    {
      ghost var l, v := lru.view, Values(lru.view);
      Bump(rec, now);
      forall i | 0 <= i < |l| && l[i].key != ip
        ensures Values(l)[i] == v[i]
      {
        RecsWithout(l, ip, i);
      }
      InsertForgets(cfg.lruSize, Values(l), v, ip, rec.Value());
    }

    /** Delete from the disk, then from the cache. */
    method DeleteBoth(ip: string)
      requires Valid()
      modifies this`disk, lru.Repr
      ensures Valid() && lru.Repr == old(lru.Repr)
      ensures State() == Cached(Erase(old(State()).db, {ip}), Without(old(State()).view, ip))
    {
      ghost var l, v := lru.view, Values(lru.view);
      DeleteRecord(ip);
      lru.Remove(ip);
      assert Values(l) == v;
      ValuesWithout(l, ip);
    }

    method ResetFailure(ip: string)
      requires Valid()
      modifies this`disk, lru.Repr
      ensures Valid() && lru.Repr == old(lru.Repr)
      ensures State() == CachedStep(cfg, old(State()), Call.ResetFailure(ip)).0
    {
      DeleteBoth(ip);
    }

    /** BlockedCount: one pass of the cursor over the disk. */
    method BlockedCount(now: int) returns (count: int)
      requires Valid()
      ensures Answer.Count(count) == CachedStep(cfg, State(), Call.BlockedCount(now)).1
      ensures count == if !hasDb then 0
                       else |set ip | ip in disk && disk[ip].blockedUntil != 0 && now < disk[ip].blockedUntil|
    {
      count := 0;
      if !hasDb {
        return;
      }
      var todo := disk.Keys;
      ghost var seen: set<string> := {};
      while todo != {}
        invariant count == |seen| && seen !! todo
        invariant todo <= disk.Keys
        invariant forall ip :: ip in seen <==> ip in disk && ip !in todo && disk[ip].IsBlocked(now)
      {
        var ip :| ip in todo;
        todo := todo - {ip};
        if disk[ip].IsBlocked(now) {
          count := count + 1;
          seen := seen + {ip};
        }
      }
      assert seen == BlockedSet(disk, now);
      assert seen == set ip | ip in disk && disk[ip].blockedUntil != 0 && now < disk[ip].blockedUntil;
    }

    /** cleanExpired: collect while reading, then delete. */
    method CleanExpired(now: int)
      requires Valid()
      modifies this`disk, lru.Repr
      ensures Valid() && lru.Repr == old(lru.Repr)
      ensures State() == CachedStep(cfg, old(State()), Call.CleanExpired(now)).0
    {
      if !hasDb {
        return;
      }
      var toDelete := CollectExpired(now);
      ghost var dead := ExpiredSet(cfg, disk, now);
      assert dead == set ip | ip in toDelete;
      DeleteAll(toDelete);
    }

    /** The second pass, outside the cursor's transaction. */
    method DeleteAll(toDelete: seq<string>)
      requires Valid() && hasDb
      modifies this`disk, lru.Repr
      ensures Valid() && lru.Repr == old(lru.Repr)
      ensures var dead := set ip | ip in toDelete;
        State() == Cached(Erase(old(State()).db, dead), WithoutAll(old(State()).view, dead))
    {
      ghost var before, gone: set<string> := State(), {};
      var i := 0;
      WithoutNone(before.view);
      assert disk - {} == disk;
      while i < |toDelete|
        invariant 0 <= i <= |toDelete|
        invariant Valid() && lru.Repr == old(lru.Repr)
        invariant forall ip :: ip in gone <==> ip in toDelete[..i]
        invariant State() == Cached(Erase(before.db, gone), WithoutAll(before.view, gone))
      {
        WithoutOneMore(before.view, gone, toDelete[i]);
        assert before.db.value - gone - {toDelete[i]} == before.db.value - (gone + {toDelete[i]});
        DeleteBoth(toDelete[i]);
        gone := gone + {toDelete[i]};
        i := i + 1;
      }
      assert gone == set ip | ip in toDelete;
    }

    /** The first pass: the addresses to delete, in the order the cursor meets them. */
    method CollectExpired(now: int) returns (toDelete: seq<string>)
      ensures forall ip :: ip in toDelete <==> ip in ExpiredSet(cfg, disk, now)
      ensures forall ip :: ip in toDelete <==>
        && ip in disk && (disk[ip].blockedUntil == 0 || disk[ip].blockedUntil <= now)
        && (disk[ip].lastFailAt == 0 || disk[ip].lastFailAt < now - cfg.recordTTL)
    {
      toDelete := [];
      var todo := disk.Keys;
      while todo != {}
        invariant todo <= disk.Keys
        invariant forall ip :: ip in toDelete <==> ip in ExpiredSet(cfg, disk, now) - todo
      {
        var ip :| ip in todo;
        todo := todo - {ip};
        var rec := disk[ip];
        if !rec.IsBlocked(now) && (rec.lastFailAt == ZERO_TIME || rec.lastFailAt < now - cfg.recordTTL) {
          toDelete := toDelete + [ip];
        }
      }
    }
  }

  lemma {:induction false} WithoutNone(l: seq<Entry<Rec>>)
    ensures WithoutAll(l, {}) == l
  {
    if |l| > 0 {
      WithoutNone(l[1..]);
    }
  }

  lemma {:induction false} WithoutOneMore(l: seq<Entry<Rec>>, gone: set<string>, k: string)
    ensures Without(WithoutAll(l, gone), k) == WithoutAll(l, gone + {k})
  {
    if |l| > 0 {
      WithoutOneMore(l[1..], gone, k);
      var w := WithoutAll(l[1..], gone);
      assert ([l[0]] + w)[1..] == w && [] + w == w;
      assert [] + WithoutAll(l[1..], gone + {k}) == WithoutAll(l[1..], gone + {k});
    }
  }
}
