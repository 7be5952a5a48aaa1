/** The cache of ids that finished processing: least recently used, with a time to live. */
module SeenCache {
  import opened Wrappers
  import opened OrderedDict

  /** The memory layer. Times are instants of one clock; a read of the clock is a parameter. */
  datatype Memory = Memory(ids: ODict<real>, lastSweep: real)

  datatype Settings = Settings(ttl: real, max: nat, sweep: real)

  ghost predicate Sized(m: Memory, s: Settings) {
    Valid(m.ids) && |m.ids.keys| <= s.max
  }

  /** Keeps the entries that have not expired. */
  function Fresh(d: ODict<real>, now: real): ODict<real>
    requires forall k :: k in d.keys ==> k in d.vals
  {
    ODict(FreshKeys(d.keys, d.vals, now), map k | k in d.vals && d.vals[k] > now :: d.vals[k])
  }

  function FreshKeys(keys: seq<string>, vals: map<string, real>, now: real): seq<string>
    requires forall k :: k in keys ==> k in vals
  {
    if keys == [] then []
    else (if vals[keys[0]] > now then [keys[0]] else []) + FreshKeys(keys[1..], vals, now)
  }

  function Sweep(m: Memory, s: Settings, now: real): Memory
    requires forall k :: k in m.ids.keys ==> k in m.ids.vals
  {
    if now - m.lastSweep < s.sweep then m else Memory(Fresh(m.ids, now), now)
  }

  function Remember(m: Memory, s: Settings, id: string, until: real): Memory {
    m.(ids := Evict(PutLast(m.ids, id, until), s.max))
  }

  /** `add_sync`. */
  function Added(m: Memory, s: Settings, id: string, now: real): Memory {
    Remember(m, s, id, now + s.ttl)
  }

  /** `has_sync`: the memory it leaves and its answer. `shared` is the answer of the external cache,
      which is asked only on a miss; without such a cache it is false. */
  function Asked(m: Memory, s: Settings, id: string, now: real, shared: bool): (Memory, bool)
    requires Sized(m, s)
  {
    var swept := Sweep(m, s, now);
    if id in swept.ids.vals && swept.ids.vals[id] > now then
      (swept.(ids := PutLast(swept.ids, id, swept.ids.vals[id])), true)
    else
      var missed := swept.(ids := Pop(swept.ids, id));
      if shared then (Remember(missed, s, id, now + s.ttl), true) else (missed, false)
  }

  class SeenCache {
    const settings: Settings
    var memory: Memory

    ghost predicate Ok()
      reads this
    {
      Sized(memory, settings)
    }

    constructor (settings: Settings, now: real)
      ensures Ok() && memory == Memory(Empty(), now) && this.settings == settings
    {
      this.settings := settings;
      memory := Memory(Empty(), now);
    }

    method Has(id: string, now: real, shared: bool) returns (hit: bool)
      requires Ok()
      modifies this
      ensures Ok() && (memory, hit) == Asked(old(memory), settings, id, now, shared)
    {
      hide Fresh, Without, Evict, Distinct;
      ghost var m := memory;
      AskedSized(m, settings, id, now, shared);
      SweepSized(m, settings, now);
      if now - memory.lastSweep >= settings.sweep {
        memory := Memory(Fresh(memory.ids, now), now);
      }
      assert memory == Sweep(m, settings, now);
      var exp := Get(memory.ids, id);
      if exp.Some? {
        if exp.value > now {
          memory := memory.(ids := PutLast(memory.ids, id, exp.value));
          return true;
        }
        memory := memory.(ids := Pop(memory.ids, id));
      } else {
        PopAbsent(memory.ids, id);
      }
      if shared {
        memory := memory.(ids := PutLast(memory.ids, id, now + settings.ttl));
        EvictLoop();
        return true;
      }
      return false;
    }

    method Add(id: string, now: real)
      requires Ok()
      modifies this
      ensures Ok() && memory == Added(old(memory), settings, id, now)
    {
      AddedSized(memory, settings, id, now);
      memory := memory.(ids := PutLast(memory.ids, id, now + settings.ttl));
      EvictLoop();
    }

    method EvictLoop()
      modifies this
      ensures memory == old(memory).(ids := Evict(old(memory).ids, settings.max))
    {
      while |memory.ids.keys| > settings.max
        invariant memory.lastSweep == old(memory).lastSweep
        invariant Evict(memory.ids, settings.max) == Evict(old(memory).ids, settings.max)
        decreases |memory.ids.keys|
      {
        memory := memory.(ids := PopFirst(memory.ids));
      }
    }
  }

  // ---- sizes -----------------------------------------------------------------------------------

  lemma {:induction false} FreshKeysAre(keys: seq<string>, vals: map<string, real>, now: real)
    requires forall k :: k in keys ==> k in vals
    ensures forall k :: k in FreshKeys(keys, vals, now) <==> k in keys && vals[k] > now
    ensures Distinct(keys) ==> Distinct(FreshKeys(keys, vals, now))
    ensures |FreshKeys(keys, vals, now)| <= |keys|
  {
    if keys != [] {
      FreshKeysAre(keys[1..], vals, now);
      assert keys == [keys[0]] + keys[1..];
    }
  }

  lemma SweepSized(m: Memory, s: Settings, now: real)
    requires Sized(m, s)
    ensures Sized(Sweep(m, s, now), s)
    ensures forall k :: k in m.ids.vals && m.ids.vals[k] > now ==>
      k in Sweep(m, s, now).ids.vals && Sweep(m, s, now).ids.vals[k] == m.ids.vals[k]
  {
    FreshKeysAre(m.ids.keys, m.ids.vals, now);
  }

  lemma PopAbsent(d: ODict<real>, id: string)
    requires Valid(d) && id !in d.vals
    ensures Pop(d, id) == d
  {
    WithoutIs(d.keys, id);
    assert d.vals - {id} == d.vals;
  }

  lemma RememberSized(m: Memory, s: Settings, id: string, until: real)
    requires Valid(m.ids)
    ensures Sized(Remember(m, s, id, until), s)
  {
    PutLastValid(m.ids, id, until);
    EvictValid(PutLast(m.ids, id, until), s.max);
  }

  lemma AddedSized(m: Memory, s: Settings, id: string, now: real)
    requires Sized(m, s)
    ensures Sized(Added(m, s, id, now), s)
  {
    RememberSized(m, s, id, now + s.ttl);
  }

  lemma AskedSized(m: Memory, s: Settings, id: string, now: real, shared: bool)
    requires Sized(m, s)
    ensures Sized(Asked(m, s, id, now, shared).0, s)
  {
    hide Without, Evict, Distinct, Sweep, Remember;
    var swept := Sweep(m, s, now);
    SweepSized(m, s, now);
    PopValid(swept.ids, id);
    RememberSized(swept.(ids := Pop(swept.ids, id)), s, id, now + s.ttl);
    PutLastValid(swept.ids, id, if id in swept.ids.vals then swept.ids.vals[id] else now);
    WithoutIs(swept.ids.keys, id);
  }

  // ---- retention -------------------------------------------------------------------------------

  /** `id` is remembered until `until`, and only ids of `touched` are more recent. */
  ghost predicate Retained(m: Memory, id: string, until: real, touched: set<string>) {
    && id in m.ids.keys && id in m.ids.vals
    && m.ids.vals[id] >= until
    && After(m.ids.keys, id) <= touched
  }

  lemma AddRetains(m: Memory, s: Settings, id: string, now: real)
    requires Sized(m, s) && s.max > 0
    ensures Retained(Added(m, s, id, now), id, now + s.ttl, {})
  {
    hide Without, Evict, Distinct, After;
    var put := PutLast(m.ids, id, now + s.ttl);
    PutLastValid(m.ids, id, now + s.ttl);
    WithoutIs(m.ids.keys, id);
    AfterLast(Without(m.ids.keys, id), id);
    EvictKeeps(put, id, s.max);
    EvictValid(put, s.max);
    AddedSized(m, s, id, now);
  }

  /** Putting another id on top keeps a retained one while fewer than `max` ids were touched. */
  lemma RememberKeeps(m: Memory, s: Settings, id: string, until: real, touched: set<string>, other: string, exp: real)
    requires Valid(m.ids) && other != id && Retained(m, id, until, touched)
    requires |touched + {other}| < s.max
    ensures Retained(Remember(m, s, other, exp), id, until, touched + {other})
  {
    hide Without, Evict, Distinct, After;
    var put := PutLast(m.ids, other, exp);
    PutOnTop(m.ids, id, touched, other, exp);
    PutLastValid(m.ids, other, exp);
    SubsetCard(After(put.keys, id), touched + {other});
    EvictKeeps(put, id, s.max);
    EvictValid(put, s.max);
    RememberSized(m, s, other, exp);
  }

  lemma PutOnTop(d: ODict<real>, id: string, touched: set<string>, other: string, exp: real)
    requires other != id && id in d.keys && After(d.keys, id) <= touched
    ensures var put := PutLast(d, other, exp); id in put.keys && After(put.keys, id) <= touched + {other}
  {
    WithoutIs(d.keys, other);
    AfterWithout(d.keys, id, other);
    AfterSnoc(Without(d.keys, other), id, other);
  }

  lemma {:induction false} AfterFresh(keys: seq<string>, vals: map<string, real>, now: real, id: string)
    requires forall k :: k in keys ==> k in vals
    requires id in keys && vals[id] > now
    ensures After(FreshKeys(keys, vals, now), id) <= After(keys, id)
  {
    FreshKeysAre(keys[1..], vals, now);
    if vals[keys[0]] > now {
      assert FreshKeys(keys, vals, now)[1..] == FreshKeys(keys[1..], vals, now);
    } else {
      assert FreshKeys(keys, vals, now) == FreshKeys(keys[1..], vals, now);
    }
    if keys[0] != id {
      AfterFresh(keys[1..], vals, now, id);
    }
  }

  lemma SweepKeeps(m: Memory, s: Settings, now: real, id: string, until: real, touched: set<string>)
    requires Sized(m, s) && Retained(m, id, until, touched) && now < until
    ensures Retained(Sweep(m, s, now), id, until, touched)
  {
    FreshKeysAre(m.ids.keys, m.ids.vals, now);
    AfterFresh(m.ids.keys, m.ids.vals, now, id);
  }

  lemma RetainedMore(m: Memory, id: string, until: real, touched: set<string>, more: set<string>)
    requires Retained(m, id, until, touched) && touched <= more
    ensures Retained(m, id, until, more)
  {
  }

  /** Asking for a retained id finds it and makes it the most recent one. */
  lemma RetainedIsFound(m: Memory, s: Settings, now: real, id: string, until: real, touched: set<string>, shared: bool)
    requires Sized(m, s) && Retained(m, id, until, touched) && now < until
    ensures Asked(m, s, id, now, shared).1
    ensures Retained(Asked(m, s, id, now, shared).0, id, until, {})
    ensures Retained(Asked(m, s, id, now, shared).0, id, until, touched)
  {
    hide Without, Evict, Distinct, Sweep, Remember;
    SweepKeeps(m, s, now, id, until, touched);
    var keys := Sweep(m, s, now).ids.keys;
    WithoutIs(keys, id);
    AfterLast(Without(keys, id), id);
  }

  /** Asking for another id keeps a retained one while fewer than `max` ids were touched. */
  lemma AskKeeps(m: Memory, s: Settings, now: real, id: string, until: real, touched: set<string>, other: string, shared: bool)
    requires Sized(m, s) && Retained(m, id, until, touched) && now < until && other != id
    requires |touched + {other}| < s.max
    ensures Retained(Asked(m, s, other, now, shared).0, id, until, touched + {other})
  {
    hide Without, Evict, Distinct, After, Sweep, Remember;
    SweepKeeps(m, s, now, id, until, touched);
    SweepSized(m, s, now);
    var swept := Sweep(m, s, now);
    if other in swept.ids.vals && swept.ids.vals[other] > now {
      PutOnTop(swept.ids, id, touched, other, swept.ids.vals[other]);
    } else {
      var missed := swept.(ids := Pop(swept.ids, other));
      PopValid(swept.ids, other);
      WithoutIs(swept.ids.keys, other);
      AfterWithout(swept.ids.keys, id, other);
      assert Retained(missed, id, until, touched);
      RememberKeeps(missed, s, id, until, touched, other, now + s.ttl);
    }
  }

  // ---- whole lives of the cache ------------------------------------------------------------------

  /** A use of the cache: a question, with the answer that the shared cache would give, or an addition. */
  datatype Use = Ask(id: string, now: real, shared: bool) | Add(id: string, now: real)

  function Used(m: Memory, s: Settings, uses: seq<Use>): (r: Memory)
    requires Sized(m, s)
    ensures Sized(r, s)
  {
    if uses == [] then m
    else
      var before, u := Used(m, s, uses[..|uses| - 1]), uses[|uses| - 1];
      match u
      case Ask(id, now, shared) => AskedSized(before, s, id, now, shared); Asked(before, s, id, now, shared).0
      case Add(id, now) => AddedSized(before, s, id, now); Added(before, s, id, now)
  }

  /** The cache was told of the id: it was added, or the shared cache knew it. */
  predicate Tells(u: Use, id: string) {
    u.id == id && (u.Add? || u.shared)
  }

  /** Every expiry in the memory is a time to live after the cache was told of the id. */
  ghost predicate Told(m: Memory, s: Settings, uses: seq<Use>) {
    forall id :: id in m.ids.vals ==> exists k :: 0 <= k < |uses| && Tells(uses[k], id) && m.ids.vals[id] == uses[k].now + s.ttl
  }

  lemma NothingNew(m: Memory, s: Settings, id: string, now: real, shared: bool)
    requires Sized(m, s)
    ensures var m' := Asked(m, s, id, now, shared).0;
      forall x :: x in m'.ids.vals ==> (x in m.ids.vals && m'.ids.vals[x] == m.ids.vals[x]) || (x == id && shared && m'.ids.vals[x] == now + s.ttl)
    ensures Asked(m, s, id, now, shared).1 && !shared ==> id in m.ids.vals && m.ids.vals[id] > now
  {
    hide Without, Distinct;
    var swept := Sweep(m, s, now);
    SweepSized(m, s, now);
    PopValid(swept.ids, id);
    PutLastValid(Pop(swept.ids, id), id, now + s.ttl);
    EvictValid(PutLast(Pop(swept.ids, id), id, now + s.ttl), s.max);
  }

  lemma AddsOne(m: Memory, s: Settings, id: string, now: real)
    requires Sized(m, s)
    ensures var m' := Added(m, s, id, now);
      forall x :: x in m'.ids.vals ==> if x == id then m'.ids.vals[x] == now + s.ttl else x in m.ids.vals && m'.ids.vals[x] == m.ids.vals[x]
  {
    hide Without, Distinct;
    PutLastValid(m.ids, id, now + s.ttl);
    EvictValid(PutLast(m.ids, id, now + s.ttl), s.max);
  }

  lemma {:induction false} UsedTold(s: Settings, uses: seq<Use>, start: real)
    ensures Sized(Memory(Empty(), start), s) && Told(Used(Memory(Empty(), start), s, uses), s, uses)
  {
    if uses != [] {
      hide Asked, Added;
      var front, u := uses[..|uses| - 1], uses[|uses| - 1];
      UsedTold(s, front, start);
      var m, m' := Used(Memory(Empty(), start), s, front), Used(Memory(Empty(), start), s, uses);
      match u {
        case Ask(id, now, shared) => NothingNew(m, s, id, now, shared);
        case Add(id, now) => AddsOne(m, s, id, now);
      }
      forall id | id in m'.ids.vals
        ensures exists k :: 0 <= k < |uses| && Tells(uses[k], id) && m'.ids.vals[id] == uses[k].now + s.ttl
      {
        if id in m.ids.vals && m'.ids.vals[id] == m.ids.vals[id] {
          var k :| 0 <= k < |front| && Tells(front[k], id) && m.ids.vals[id] == front[k].now + s.ttl;
          assert Tells(uses[k], id);
        } else {
          assert Tells(uses[|front|], id);
        }
      }
    }
  }

  /** Nothing is made up: after any uses, an id that the shared cache does not know is reported only if the
      cache was told of it, and less than a time to live ago. */
  lemma KnownOnlyIfTold(s: Settings, uses: seq<Use>, start: real, id: string, now: real) returns (k: nat)
    requires Sized(Memory(Empty(), start), s) && Asked(Used(Memory(Empty(), start), s, uses), s, id, now, false).1
    ensures k < |uses| && uses[k].id == id && (uses[k].Add? || uses[k].shared) && now < uses[k].now + s.ttl
  {
    hide Asked, Used;
    UsedTold(s, uses, start);
    NothingNew(Used(Memory(Empty(), start), s, uses), s, id, now, false);
    k :| 0 <= k < |uses| && Tells(uses[k], id) && Used(Memory(Empty(), start), s, uses).ids.vals[id] == uses[k].now + s.ttl;
  }

  /** The other ids that went through the cache. */
  function OtherIds(uses: seq<Use>, id: string): set<string> {
    set k | 0 <= k < |uses| && uses[k].id != id :: uses[k].id
  }

  /** The cache is told of an id. */
  lemma TellRetains(m: Memory, s: Settings, id: string, now: real)
    requires Sized(m, s) && s.max > 0
    ensures Retained(Added(m, s, id, now), id, now + s.ttl, {})
    ensures Asked(m, s, id, now, true).1
    ensures id !in m.ids.vals || m.ids.vals[id] <= now ==> Retained(Asked(m, s, id, now, true).0, id, now + s.ttl, {})
  {
    hide Without, Evict, Distinct, Remember, Retained;
    AddRetains(m, s, id, now);
    SweepSized(m, s, now);
    var missed := Sweep(m, s, now).(ids := Pop(Sweep(m, s, now).ids, id));
    PopValid(Sweep(m, s, now).ids, id);
    AddRetains(missed, s, id, now);
    SweepKeepsValues(m, s, now);
  }

  lemma SweepKeepsValues(m: Memory, s: Settings, now: real)
    requires Sized(m, s)
    ensures forall x :: x in Sweep(m, s, now).ids.vals ==> x in m.ids.vals && Sweep(m, s, now).ids.vals[x] == m.ids.vals[x]
  {
  }

  lemma UseKeeps(m: Memory, s: Settings, u: Use, id: string, until: real, others: set<string>)
    requires Sized(m, s) && Retained(m, id, until, others) && u.now < until && (u.Add? && u.id == id ==> until <= u.now + s.ttl)
    requires |if u.id == id then others else others + {u.id}| < s.max
    ensures Retained(Used(m, s, [u]), id, until, if u.id == id then others else others + {u.id})
  {
    hide Asked, Remember, Retained;
    assert [u][..0] == [];
    match u {
      case Ask(x, now, shared) =>
        if x == id {
          RetainedIsFound(m, s, now, id, until, others, shared);
        } else {
          AskKeeps(m, s, now, id, until, others, x, shared);
        }
      case Add(x, now) =>
        if x == id {
          AddRetains(m, s, id, now);
          RetainedLess(Added(m, s, id, now), id, now + s.ttl, until, others);
        } else {
          RememberKeeps(m, s, id, until, others, x, now + s.ttl);
        }
    }
  }

  lemma RetainedLess(m: Memory, id: string, until: real, sooner: real, more: set<string>)
    requires Retained(m, id, until, {}) && sooner <= until
    ensures Retained(m, id, sooner, more)
  {
  }

  lemma UsedSnoc(m: Memory, s: Settings, uses: seq<Use>, u: Use, id: string)
    requires Sized(m, s)
    ensures Used(m, s, uses + [u]) == Used(Used(m, s, uses), s, [u])
    ensures OtherIds(uses + [u], id) == if u.id == id then OtherIds(uses, id) else OtherIds(uses, id) + {u.id}
  {
    hide Asked, Added;
    var all := uses + [u];
    assert all[..|uses|] == uses && [u][..0] == [];
    forall x | x in OtherIds(uses, id)
      ensures x in OtherIds(all, id)
    {
      var k :| 0 <= k < |uses| && uses[k].id != id && uses[k].id == x;
      assert all[k].id == x;
    }
    assert all[|uses|] == u;
  }

  lemma {:induction false} StaysRetained(m: Memory, s: Settings, id: string, at: real, uses: seq<Use>)
    requires Sized(m, s) && Retained(m, id, at + s.ttl, {}) && |OtherIds(uses, id)| < s.max
    requires forall k :: 0 <= k < |uses| ==> at <= uses[k].now < at + s.ttl
    ensures Retained(Used(m, s, uses), id, at + s.ttl, OtherIds(uses, id))
  {
    if uses == [] {
      assert OtherIds(uses, id) == {};
    } else {
      hide Retained, Used, OtherIds;
      var front, u := uses[..|uses| - 1], uses[|uses| - 1];
      assert uses == front + [u];
      UsedSnoc(m, s, front, u, id);
      SubsetCard(OtherIds(front, id), OtherIds(uses, id));
      StaysRetained(m, s, id, at, front);
      UseKeeps(Used(m, s, front), s, u, id, at + s.ttl, OtherIds(front, id));
    }
  }

  lemma TellIs(m: Memory, s: Settings, u: Use)
    requires Sized(m, s) && s.max > 0 && (u.Add? || (u.shared && (u.id !in m.ids.vals || m.ids.vals[u.id] <= u.now)))
    ensures Retained(Used(m, s, [u]), u.id, u.now + s.ttl, {})
  {
    hide Asked, Added, Retained, Sized;
    assert [u][..0] == [] && [u][0] == u;
    TellRetains(m, s, u.id, u.now);
  }

  /** And nothing is forgotten early: an id that was added, or filled in from the shared cache, is reported
      for a time to live, whatever else goes through the cache, as long as that is fewer than `max` ids. */
  lemma KnownIfTold(m: Memory, s: Settings, u: Use, uses: seq<Use>, now: real, shared: bool)
    requires Sized(m, s) && (u.Add? || (u.shared && (u.id !in m.ids.vals || m.ids.vals[u.id] <= u.now)))
    requires (forall k :: 0 <= k < |uses| ==> u.now <= uses[k].now < u.now + s.ttl) && now < u.now + s.ttl
    requires |OtherIds(uses, u.id)| < s.max
    ensures Asked(Used(Used(m, s, [u]), s, uses), s, u.id, now, shared).1
  {
    hide Asked, Used, Retained, Sized, OtherIds;
    TellIs(m, s, u);
    StaysRetained(Used(m, s, [u]), s, u.id, u.now, uses);
    RetainedIsFound(Used(Used(m, s, [u]), s, uses), s, now, u.id, u.now + s.ttl, OtherIds(uses, u.id), shared);
  }
}
