/**
 Failure records and the blocker's parameters (pkg/auth/blocker.go).

 Instants are whole nanoseconds counted from Go's zero time, so 0 is the time for which IsZero holds.
 */
module Records {
  import opened Basics

  const ZERO_TIME := 0

  /** The value of an AuthFailureRecord, as JSON copies it to disk. */
  datatype Rec = Rec(failCount: int, lastFailAt: int, blockedUntil: int) {
    predicate IsBlocked(now: int) {
      blockedUntil != ZERO_TIME && now < blockedUntil
    }
  }

  const ZERO_REC := Rec(0, ZERO_TIME, ZERO_TIME)

  const DEFAULT_MAX_FAILURES := 3
  const DEFAULT_BLOCK_DURATION := 600 * SECOND
  const DEFAULT_LRU_SIZE := 1000
  const DEFAULT_RECORD_TTL := 86400 * SECOND
  const DEFAULT_CLEAN_INTERVAL := 60 * SECOND

  /** AuthBlockerConfig; the cleaning interval only says when cleanings come, which every run leaves open. */
  datatype Config = Config(maxFailures: int, blockDur: int, lruSize: int, recordTTL: int, cleanInterval: int) {
    predicate Valid() {
      maxFailures >= 1 && blockDur >= 1 && lruSize >= 1 && recordTTL >= 1
    }

    /** NewAuthBlocker: field by field, what is positive stays, and what is not takes its default. */
    function Normalized(): (c: Config)
      ensures c.Valid() && c.cleanInterval >= 1
      ensures c.maxFailures == maxFailures || (maxFailures <= 0 && c.maxFailures == 3)
      ensures c.blockDur == blockDur || (blockDur <= 0 && c.blockDur == 600_000_000_000)
      ensures c.lruSize == lruSize || (lruSize <= 0 && c.lruSize == 1000)
      ensures c.recordTTL == recordTTL || (recordTTL <= 0 && c.recordTTL == 86_400_000_000_000)
      ensures c.cleanInterval == cleanInterval || (cleanInterval <= 0 && c.cleanInterval == 60_000_000_000)
    {
      Config(if maxFailures <= 0 then DEFAULT_MAX_FAILURES else maxFailures,
             if blockDur <= 0 then DEFAULT_BLOCK_DURATION else blockDur,
             if lruSize <= 0 then DEFAULT_LRU_SIZE else lruSize,
             if recordTTL <= 0 then DEFAULT_RECORD_TTL else recordTTL,
             if cleanInterval <= 0 then DEFAULT_CLEAN_INTERVAL else cleanInterval)
    }
  }

  /** What RecordFailure does to a record. */
  function Failed(cfg: Config, r: Rec, now: int): Rec {
    Rec(r.failCount + 1, now,
        if r.failCount + 1 >= cfg.maxFailures then now + cfg.blockDur else r.blockedUntil)
  }

  /** Would the cleaner delete this record? */
  predicate Expired(cfg: Config, r: Rec, now: int) {
    !r.IsBlocked(now) && (r.lastFailAt == ZERO_TIME || r.lastFailAt < now - cfg.recordTTL)
  }

  /** The record object that the cache, the blocker and its callers share and mutate in place. */
  class FailureRecord {
    var failCount: int
    var lastFailAt: int
    var blockedUntil: int

    ghost function Value(): Rec
      reads this
    {
      Rec(failCount, lastFailAt, blockedUntil)
    }

    constructor (r: Rec)
      ensures Value() == r
    {
      failCount, lastFailAt, blockedUntil := r.failCount, r.lastFailAt, r.blockedUntil;
    }

    method IsBlocked(now: int) returns (blocked: bool)
      ensures blocked == Value().IsBlocked(now)
      ensures blocked <==> blockedUntil != 0 && now < blockedUntil
    {
      blocked := blockedUntil != ZERO_TIME && now < blockedUntil;
    }
  }
}
