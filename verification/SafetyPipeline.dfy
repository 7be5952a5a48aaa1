/** The gate in front of the pipeline, and what happens when a batch has been handled. */
module SafetyPipeline {
  import opened Wrappers
  import PL = ProcessingLock
  import OD = OrderedDict
  import opened SeenCache

  datatype RejectReason = Stale | Duplicate | SelfSent | PolicyReason(code: nat) | BotLoop | LockContention

  /** What the other checks say about one message. A policy rejection may carry no reason, and a
      tripped loop guard reports one only when configured to. */
  datatype Facts = Facts(stale: bool, selfSent: bool, allowed: bool, policyReason: Option<RejectReason>,
                         botLoop: bool, reportLoop: bool)

  datatype Outcome = Accepted | Rejected(reason: Option<RejectReason>)

  /** One pass of an id through the dedup cache and the lock. `passes` is the verdict of the checks in
      between; a dropped id never reaches the lock. */
  ghost predicate Admission(
    s: Settings, lockTtl: int, id: string, clock: int, wall: real, shared: bool, passes: bool,
    locks: map<string, int>, m: Memory, locks': map<string, int>, m': Memory, accepted: bool)
    requires Sized(m, s)
  {
    var (after, hit) := Asked(m, s, id, wall, shared);
    && m' == after
    && (accepted <==> !hit && passes && !PL.Live(locks, id, clock))
    && forall x, t :: clock <= t ==>
      (PL.Live(locks', x, t) <==> if accepted && x == id then t < clock + lockTtl else PL.Live(locks, x, t))
  }

  /** The memories of a cache to which ids are added one after the other. */
  ghost predicate AddsInTurn(mems: seq<Memory>, s: Settings, ids: seq<string>, wall: real) {
    |mems| == |ids| + 1 && forall k :: 0 <= k < |ids| ==> mems[k + 1] == Added(mems[k], s, ids[k], wall)
  }

  function All(ids: seq<string>): set<string> {
    set x | x in ids
  }

  /** The other ids that come after position `k`. */
  function Later(ids: seq<string>, k: nat): set<string>
    requires k < |ids|
  {
    All(ids[k + 1..]) - {ids[k]}
  }

  lemma AllSnoc(ids: seq<string>, x: string)
    ensures All(ids + [x]) == All(ids) + {x}
    ensures forall k :: 0 <= k < |ids| ==> Later(ids + [x], k) == if x == ids[k] then Later(ids, k) else Later(ids, k) + {x}
  {
    forall k | 0 <= k < |ids|
      ensures Later(ids + [x], k) == if x == ids[k] then Later(ids, k) else Later(ids, k) + {x}
    {
      assert (ids + [x])[k + 1..] == ids[k + 1..] + [x];
    }
  }

  lemma LastTurn(mems: seq<Memory>, s: Settings, ids: seq<string>, wall: real)
    requires AddsInTurn(mems, s, ids, wall) && Sized(mems[0], s) && ids != []
    ensures var n, x, front := |ids| - 1, ids[|ids| - 1], ids[..|ids| - 1];
      && |mems| == n + 2 && ids == front + [x]
      && AddsInTurn(mems[..n + 1], s, front, wall) && mems[..n + 1][0] == mems[0] && mems[..n + 1][n] == mems[n]
      && mems[n + 1] == Added(mems[n], s, x, wall) && Sized(mems[n], s) && OD.Valid(mems[n].ids)
      && All(ids) == All(front) + {x}
  {
    hide Added, Sized;
    AllSnoc(ids[..|ids| - 1], ids[|ids| - 1]);
    assert ids == ids[..|ids| - 1] + [ids[|ids| - 1]];
    TurnsSized(mems, s, ids, wall, |ids| - 1);
  }

  lemma {:induction false} TurnsSized(mems: seq<Memory>, s: Settings, ids: seq<string>, wall: real, k: nat)
    requires AddsInTurn(mems, s, ids, wall) && Sized(mems[0], s) && k <= |ids|
    ensures Sized(mems[k], s) && OD.Valid(mems[k].ids)
  {
    hide Added;
    if k > 0 {
      TurnsSized(mems, s, ids, wall, k - 1);
      AddedSized(mems[k - 1], s, ids[k - 1], wall);
    }
  }

  lemma TurnKeeps(m: Memory, s: Settings, id: string, until: real, touched: set<string>, more: set<string>, x: string, wall: real)
    requires OD.Valid(m.ids) && Retained(m, id, until, touched + more) && x != id
    requires |touched + (more + {x})| < s.max
    ensures Retained(Added(m, s, x, wall), id, until, touched + (more + {x}))
  {
    hide Retained, Remember, OD.Valid;
    assert (touched + more) + {x} == touched + (more + {x});
    RememberKeeps(m, s, id, until, touched + more, x, wall + s.ttl);
  }

  /** What was retained before the ids were added is retained until too many others have come. */
  lemma {:induction false} TurnsKeep(mems: seq<Memory>, s: Settings, ids: seq<string>, wall: real, id: string, until: real, touched: set<string>)
    requires AddsInTurn(mems, s, ids, wall) && Sized(mems[0], s) && Retained(mems[0], id, until, touched)
    requires id !in ids && |touched + All(ids)| < s.max
    ensures Retained(mems[|ids|], id, until, touched + All(ids))
  {
    hide Retained, Added, Sized, OD.Valid;
    if ids == [] {
      assert touched + All(ids) == touched;
    } else {
      hide All, AddsInTurn;
      var n, x, front := |ids| - 1, ids[|ids| - 1], ids[..|ids| - 1];
      LastTurn(mems, s, ids, wall);
      SubsetCard(touched + All(front), touched + All(ids));
      assert id !in front && id != x;
      TurnsKeep(mems[..n + 1], s, front, wall, id, until, touched);
      TurnKeeps(mems[n], s, id, until, touched, All(front), x, wall);
    }
  }

  /** Each id is retained from its turn on until too many others have come. */
  lemma {:induction false} TurnsRetain(mems: seq<Memory>, s: Settings, ids: seq<string>, wall: real, k: nat)
    requires AddsInTurn(mems, s, ids, wall) && Sized(mems[0], s) && k < |ids| && |Later(ids, k)| < s.max
    ensures Retained(mems[|ids|], ids[k], wall + s.ttl, Later(ids, k))
  {
    hide Retained, Remember, Later, Sized, AddsInTurn, OD.Valid;
    var n, x, front := |ids| - 1, ids[|ids| - 1], ids[..|ids| - 1];
    LastTurn(mems, s, ids, wall);
    AllSnoc(front, x);
    if x == ids[k] {
      AddRetains(mems[n], s, x, wall);
      RetainedMore(mems[n + 1], x, wall + s.ttl, {}, Later(ids, k));
    } else {
      SubsetCard(Later(front, k), Later(ids, k));
      TurnsRetain(mems[..n + 1], s, front, wall, k);
      RememberKeeps(mems[n], s, ids[k], wall + s.ttl, Later(front, k), x, wall + s.ttl);
    }
  }

  class SafetyPipeline {
    const seen: SeenCache
    const locks: PL.ProcessingLock

    ghost predicate Valid()
      reads this, seen
    {
      seen.Ok()
    }

    constructor (settings: Settings, lockTtl: int, sweepMs: int, wall: real)
      ensures Valid() && fresh(seen) && fresh(locks) && locks.locks == map[]
      ensures seen.settings == settings && locks.ttlMs == lockTtl
    {
      seen := new SeenCache(settings, wall);
      locks := new PL.ProcessingLock(lockTtl, sweepMs);
    }

    /** Steps 1 to 4 of `push_message`. The order decides the reason: stale, then duplicate, self-sent,
        policy, bot loop, and the lock last. A stale message is dropped before anything is touched. */
    method PushGate(id: string, f: Facts, clock: int, wall: real, shared: bool) returns (o: Outcome)
      requires Valid()
      modifies seen, locks
      ensures Valid()
      ensures f.stale ==>
        o == Rejected(Some(Stale)) && seen.memory == old(seen.memory) && locks.locks == old(locks.locks)
      ensures !f.stale ==>
        && Admission(seen.settings, locks.ttlMs, id, clock, wall, shared, !f.selfSent && f.allowed && !f.botLoop,
                     old(locks.locks), old(seen.memory), locks.locks, seen.memory, o.Accepted?)
        && o == (if Asked(old(seen.memory), seen.settings, id, wall, shared).1 then Rejected(Some(Duplicate))
                 else if f.selfSent then Rejected(Some(SelfSent))
                 else if !f.allowed then Rejected(f.policyReason)
                 else if f.botLoop then Rejected(if f.reportLoop then Some(BotLoop) else None)
                 else if id in old(locks.locks) && old(locks.locks)[id] > clock then Rejected(Some(LockContention))
                 else Accepted)
    {
      if f.stale {
        return Rejected(Some(Stale));
      }
      var hit := seen.Has(id, wall, shared);
      if hit {
        return Rejected(Some(Duplicate));
      }
      if f.selfSent {
        return Rejected(Some(SelfSent));
      }
      if !f.allowed {
        return Rejected(f.policyReason);
      }
      if f.botLoop {
        return Rejected(if f.reportLoop then Some(BotLoop) else None);
      }
      var acquired := locks.Acquire(id, clock);
      if !acquired {
        return Rejected(Some(LockContention));
      }
      return Accepted;
    }

    /** The gate of `push_action`: dedup and lock only, silent. */
    method ActionGate(id: string, clock: int, wall: real, shared: bool) returns (accepted: bool)
      requires Valid()
      modifies seen, locks
      ensures Valid()
      ensures Admission(seen.settings, locks.ttlMs, id, clock, wall, shared, true,
                        old(locks.locks), old(seen.memory), locks.locks, seen.memory, accepted)
    {
      var hit := seen.Has(id, wall, shared);
      if hit {
        return false;
      }
      accepted := locks.Acquire(id, clock);
    }

    /** The `finally` part of the flush handlers and of the action runner: every source is marked as
        seen and its lock released, whether or not the handler failed. */
    method FinishBatch(sources: seq<string>, wall: real) returns (ghost mems: seq<Memory>)
      requires Valid()
      modifies seen, locks
      ensures Valid() && locks.locks == old(locks.locks) - (set id | id in sources)
      ensures AddsInTurn(mems, seen.settings, sources, wall) && mems[0] == old(seen.memory) && mems[|sources|] == seen.memory
      // A redelivery of any source is recognised until its time is over or too many others came after.
      ensures forall k :: 0 <= k < |sources| && |Later(sources, k)| < seen.settings.max ==>
        Retained(seen.memory, sources[k], wall + seen.settings.ttl, Later(sources, k))
      ensures forall k, later, shared :: 0 <= k < |sources| && |Later(sources, k)| < seen.settings.max && later < wall + seen.settings.ttl ==>
        Asked(seen.memory, seen.settings, sources[k], later, shared).1
      // And so is what was known before, if it is not crowded out.
      ensures forall id, until, touched :: id !in sources && |touched + All(sources)| < seen.settings.max && Retained(old(seen.memory), id, until, touched) ==>
        Retained(seen.memory, id, until, touched + All(sources))
    {
      hide Added, Asked, Retained;
      mems := [seen.memory];
      for k := 0 to |sources|
        invariant Valid()
        invariant AddsInTurn(mems, seen.settings, sources[..k], wall) && mems[0] == old(seen.memory) && mems[k] == seen.memory
        invariant locks.locks == old(locks.locks) - (set id | id in sources[..k])
      {
        assert sources[..k + 1] == sources[..k] + [sources[k]];
        seen.Add(sources[k], wall);
        locks.Release(sources[k]);
        mems := mems + [seen.memory];
      }
      assert sources[..|sources|] == sources;
      Recognised(mems, sources, wall);
    }

    lemma Recognised(mems: seq<Memory>, sources: seq<string>, wall: real)
      requires AddsInTurn(mems, seen.settings, sources, wall) && Sized(mems[0], seen.settings) && Sized(mems[|sources|], seen.settings)
      ensures forall k :: 0 <= k < |sources| && |Later(sources, k)| < seen.settings.max ==>
        Retained(mems[|sources|], sources[k], wall + seen.settings.ttl, Later(sources, k))
      ensures forall k, later, shared :: 0 <= k < |sources| && |Later(sources, k)| < seen.settings.max && later < wall + seen.settings.ttl ==>
        Asked(mems[|sources|], seen.settings, sources[k], later, shared).1
      ensures forall id, until, touched :: id !in sources && |touched + All(sources)| < seen.settings.max && Retained(mems[0], id, until, touched) ==>
        Retained(mems[|sources|], id, until, touched + All(sources))
    {
      hide Added, Asked, Retained, Sized, Later, All;
      var m, s := mems[|sources|], seen.settings;
      forall k | 0 <= k < |sources| && |Later(sources, k)| < s.max
        ensures Retained(m, sources[k], wall + s.ttl, Later(sources, k))
        ensures forall later, shared :: later < wall + s.ttl ==> Asked(m, s, sources[k], later, shared).1
      {
        TurnsRetain(mems, s, sources, wall, k);
        forall later, shared | later < wall + s.ttl
          ensures Asked(m, s, sources[k], later, shared).1
        {
          RetainedIsFound(m, s, later, sources[k], wall + s.ttl, Later(sources, k), shared);
        }
      }
      forall id, until, touched | id !in sources && |touched + All(sources)| < s.max && Retained(mems[0], id, until, touched)
        ensures Retained(m, id, until, touched + All(sources))
      {
        TurnsKeep(mems, s, sources, wall, id, until, touched);
      }
    }
  }
}
