/** The short-lived lock on an id that is being processed. */
module ProcessingLock {

  /** The lock on `id` is held and fresh. */
  predicate Live(locks: map<string, int>, id: string, now: int) {
    id in locks && locks[id] > now
  }

  class ProcessingLock {
    const ttlMs: int
    const sweepIntervalMs: int
    var locks: map<string, int>
    var lastSweepMs: int

    constructor (ttlMs: int, sweepIntervalMs: int)
      ensures locks == map[] && this.ttlMs == ttlMs && this.sweepIntervalMs == sweepIntervalMs
    {
      this.ttlMs, this.sweepIntervalMs := ttlMs, sweepIntervalMs;
      locks, lastSweepMs := map[], 0;
    }

    /** Drops expired entries, at most once per interval. No one can tell: from `now` on the same
        locks are live. */
    method MaybeSweep(now: int)
      modifies this
      ensures forall id, t :: now <= t ==> (Live(locks, id, t) <==> Live(old(locks), id, t))
      ensures forall id :: id in locks ==> id in old(locks) && locks[id] == old(locks)[id]
    {
      if now - lastSweepMs < sweepIntervalMs {
        return;
      }
      locks := map id | id in locks && locks[id] > now :: locks[id];
      lastSweepMs := now;
    }

    /** Succeeds exactly when no live lock is held, and then holds one for the time to live. */
    method Acquire(id: string, now: int) returns (ok: bool)
      modifies this
      ensures ok <==> !Live(old(locks), id, now)
      ensures forall x, t :: now <= t ==>
        (Live(locks, x, t) <==> if ok && x == id then t < now + ttlMs else Live(old(locks), x, t))
    {
      MaybeSweep(now);
      if id in locks && locks[id] > now {
        return false;
      }
      locks := locks[id := now + ttlMs];
      return true;
    }

    method Release(id: string)
      modifies this
      ensures locks == old(locks) - {id} && lastSweepMs == old(lastSweepMs)
    {
      locks := locks - {id};
    }
  }
}
