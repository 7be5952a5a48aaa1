/** A dictionary whose entries expire and are reclaimed as it is used. */
module ExpiringCache {
  import opened Wrappers

  type Entries<V> = map<string, (V, real)>

  /** What a reader sees at time `now`. */
  function Visible<V>(c: Entries<V>, key: string, now: real): Option<V> {
    if key in c && !(c[key].1 < now) then Some(c[key].0) else None
  }

  /** From `now` on nobody can tell the two apart. */
  ghost predicate SameFrom<V>(a: Entries<V>, b: Entries<V>, now: real) {
    forall k, t :: now <= t ==> Visible(a, k, t) == Visible(b, k, t)
  }

  function AfterGet<V>(c: Entries<V>, key: string, now: real): Entries<V> {
    if key in c && c[key].1 < now then c - {key} else c
  }

  function Cleared<V>(c: Entries<V>, now: real): Entries<V> {
    map k | k in c && !(c[k].1 < now) :: c[k]
  }

  /** Reading drops at most an entry that has expired anyway. */
  lemma GetUnobservable<V>(c: Entries<V>, key: string, now: real)
    ensures SameFrom(c, AfterGet(c, key, now), now)
  {
  }

  /** The opportunistic sweep is invisible. */
  lemma SweepUnobservable<V>(c: Entries<V>, now: real)
    ensures SameFrom(c, Cleared(c, now), now)
  {
  }

  class ExpiringCache<V> {
    var cache: Entries<V>
    const clearInterval: real
    var lastClear: real

    constructor (clearInterval: real, now: real)
      ensures cache == map[] && lastClear == now && this.clearInterval == clearInterval
    {
      cache, this.clearInterval, lastClear := map[], clearInterval, now;
    }

    method Get(key: string, now: real) returns (r: Option<V>)
      modifies this`cache
      ensures r == Visible(old(cache), key, now) && cache == AfterGet(old(cache), key, now)
      ensures SameFrom(old(cache), cache, now)
    {
      GetUnobservable(cache, key, now);
      if key !in cache {
        return None;
      }
      var (value, expire) := cache[key];
      if expire < now {
        cache := cache - {key};
        return None;
      }
      return Some(value);
    }

    /** The entry lives `ttl` longer; every other key reads as before. */
    method Set(key: string, value: V, ttl: real, now: real)
      modifies this
      ensures cache ==
        (if now - old(lastClear) >= clearInterval then Cleared(old(cache), now) else old(cache))[key := (value, now + ttl)]
      ensures lastClear == if now - old(lastClear) >= clearInterval then now else old(lastClear)
      ensures forall k, t :: now <= t && k != key ==> Visible(cache, k, t) == Visible(old(cache), k, t)
      ensures forall t :: now <= t ==> Visible(cache, key, t) == if t <= now + ttl then Some(value) else None
    {
      SweepUnobservable(cache, now);
      if now - lastClear >= clearInterval {
        cache := Cleared(cache, now);
        lastClear := now;
      }
      cache := cache[key := (value, now + ttl)];
    }
  }
}
