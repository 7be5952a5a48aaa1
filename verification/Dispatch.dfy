/** At-most-once dispatch: gate, lock and cache as a transition system.

    Coroutines run on one loop, so a step is what happens between two suspension points. A delivery is
    one accepted push of an id. Here it only has a place, and the places are what the pipeline promises;
    `Pipeline` derives them from the histories of the chat scopes and the buckets of the media batcher.
    A delivery that is withdrawn leaves its lock to expire. */
module Dispatch {
  import opened Wrappers
  import opened SeenCache
  import opened OrderedDict
  import opened SafetyPipeline
  import PL = ProcessingLock

  datatype Config = Config(lockTtl: int, settings: Settings)

  datatype Place =
    | Gated              // past the lock, not handed to a queue yet
    | MediaBucket
    | MediaHanded        // flushed from its bucket
    | ChatBuffer         // in the buffer or a blocked batch
    | HeldBack           // a run deferred behind messages
    | TaskQueue
    | InHandler
    | MarkedSeen         // handled and marked, lock not released yet
    | Done
    | Withdrawn

  datatype Delivery = Delivery(id: string, since: int, place: Place)

  /** When an id finished, and which other ids went through the cache since. */
  datatype Completion = Completion(at: real, touched: set<string>)

  datatype State = State(
    clock: int,                         // monotonic, milliseconds
    wall: real,                         // wall clock, seconds
    locks: map<string, int>,
    seen: Memory,
    deliveries: seq<Delivery>,
    entered: seq<string>,               // ids in the order in which they reached a handler
    completed: map<string, Completion>)

  predicate InFlight(p: Place) {
    p != Done && p != Withdrawn
  }

  predicate Waiting(p: Place) {
    p in {Gated, MediaBucket, MediaHanded, ChatBuffer, HeldBack, TaskQueue}
  }

  /** The ways a delivery can move without its handler starting. */
  predicate CanMove(from: Place, to: Place) {
    from == to || (Waiting(from) && (Waiting(to) || to == Withdrawn))
  }

  datatype Step =
    | Tick(clock: int, wall: real)
    | Offer(id: string, shared: bool, passes: bool)
    | LightAsk(id: string, shared: bool)
    | LightAdd(id: string)
    | Move(places: seq<Place>)
    | Enter(k: nat)
    | Mark(k: nat)
    | Release(k: nat)

  function Init(wall: real): State {
    State(0, wall, map[], Memory(Empty(), wall), [], [], map[])
  }

  /** Every completed id except `id` has seen one more id pass. */
  function Touch(completed: map<string, Completion>, id: string): map<string, Completion> {
    map x | x in completed ::
      if x == id then completed[x] else completed[x].(touched := completed[x].touched + {id})
  }

  /** The cache is still obliged to know `id`. */
  predicate Fresh(c: Config, st: State, id: string)
    requires id in st.completed
  {
    st.wall < st.completed[id].at + c.settings.ttl && |st.completed[id].touched| < c.settings.max
  }

  function Placed(ds: seq<Delivery>, places: seq<Place>): seq<Delivery>
    requires |places| == |ds|
  {
    seq(|ds|, k requires 0 <= k < |ds| => ds[k].(place := places[k]))
  }

  // ---- the assumptions -------------------------------------------------------------------------

  /** Processing takes less time than the lock lives. */
  predicate ProcessingIsShort(c: Config, st: State) {
    forall k :: 0 <= k < |st.deliveries| && InFlight(st.deliveries[k].place) ==>
      st.clock < st.deliveries[k].since + c.lockTtl
  }

  /** An id is delivered again only while the cache is obliged to know it. */
  predicate RedeliveryIsSoon(c: Config, st: State, id: string) {
    id in st.completed ==> Fresh(c, st, id)
  }

  // ---- the steps -------------------------------------------------------------------------------

  ghost predicate Next(c: Config, st: State, step: Step, st': State) {
    Sized(st.seen, c.settings) &&
    match step
    case Tick(clock, wall) =>
      && st.clock <= clock && st.wall <= wall
      && st' == st.(clock := clock, wall := wall)
    case Offer(id, shared, passes) =>
      exists accepted: bool ::
        && Admission(c.settings, c.lockTtl, id, st.clock, st.wall, shared, passes,
                     st.locks, st.seen, st'.locks, st'.seen, accepted)
        && st' == st.(locks := st'.locks, seen := st'.seen,
                      deliveries := if accepted then st.deliveries + [Delivery(id, st.clock, Gated)] else st.deliveries,
                      completed := Touch(st.completed, id))
    case LightAsk(id, shared) =>
      st' == st.(seen := Asked(st.seen, c.settings, id, st.wall, shared).0, completed := Touch(st.completed, id))
    case LightAdd(id) =>
      st' == st.(seen := Added(st.seen, c.settings, id, st.wall), completed := Touch(st.completed, id))
    case Move(places) =>
      && |places| == |st.deliveries|
      && (forall k :: 0 <= k < |places| ==> CanMove(st.deliveries[k].place, places[k]))
      && st' == st.(deliveries := Placed(st.deliveries, places))
    case Enter(k) =>
      && k < |st.deliveries| && Waiting(st.deliveries[k].place)
      && st' == st.(deliveries := st.deliveries[k := st.deliveries[k].(place := InHandler)],
                    entered := st.entered + [st.deliveries[k].id])
    case Mark(k) =>
      && k < |st.deliveries| && st.deliveries[k].place == InHandler
      && var id := st.deliveries[k].id;
         st' == st.(deliveries := st.deliveries[k := st.deliveries[k].(place := MarkedSeen)],
                    seen := Added(st.seen, c.settings, id, st.wall),
                    completed := Touch(st.completed, id)[id := Completion(st.wall, {})])
    case Release(k) =>
      && k < |st.deliveries| && st.deliveries[k].place == MarkedSeen
      && st' == st.(deliveries := st.deliveries[k := st.deliveries[k].(place := Done)],
                    locks := st.locks - {st.deliveries[k].id})
  }

  /** The step respects the assumptions. */
  ghost predicate Assumed(c: Config, st: State, step: Step, st': State) {
    match step
    case Tick(_, _) => ProcessingIsShort(c, st')
    case Offer(id, _, _) => RedeliveryIsSoon(c, st, id)
    case _ => true
  }

  // ---- the invariant ---------------------------------------------------------------------------

  ghost predicate OnePerId(ds: seq<Delivery>) {
    forall i, j :: 0 <= i < j < |ds| && InFlight(ds[i].place) && InFlight(ds[j].place) ==> ds[i].id != ds[j].id
  }

  ghost predicate Holds(c: Config, st: State, d: Delivery) {
    forall t :: st.clock <= t ==> (PL.Live(st.locks, d.id, t) <==> t < d.since + c.lockTtl)
  }

  /** An id has at most one delivery in flight, and that delivery holds the live lock on it. */
  ghost predicate LocksHeld(c: Config, st: State) {
    && ProcessingIsShort(c, st)
    && OnePerId(st.deliveries)
    && forall k :: 0 <= k < |st.deliveries| && InFlight(st.deliveries[k].place) ==> Holds(c, st, st.deliveries[k])
  }

  /** A live lock belongs to a delivery in flight or to a withdrawn one. */
  ghost predicate LocksOwned(st: State) {
    forall id :: PL.Live(st.locks, id, st.clock) ==> Owned(st.deliveries, id)
  }

  ghost predicate Owned(deliveries: seq<Delivery>, id: string) {
    exists k :: 0 <= k < |deliveries| && deliveries[k].id == id && deliveries[k].place != Done
  }

  /** The log agrees with the places. */
  ghost predicate Logged(st: State) {
    && Distinct(st.entered)
    && (forall k :: 0 <= k < |st.deliveries| && Waiting(st.deliveries[k].place) ==> st.deliveries[k].id !in st.entered)
    && (forall k :: 0 <= k < |st.deliveries| && st.deliveries[k].place in {MarkedSeen, Done} ==>
         st.deliveries[k].id in st.completed)
    && forall i :: 0 <= i < |st.entered| ==> st.entered[i] in st.completed || Handled(st.deliveries, st.entered[i])
  }

  ghost predicate Handled(deliveries: seq<Delivery>, id: string) {
    exists k :: 0 <= k < |deliveries| && deliveries[k].id == id && deliveries[k].place in {InHandler, MarkedSeen}
  }

  /** Whatever finished recently enough is still in the cache. */
  ghost predicate Remembered(c: Config, st: State) {
    && Sized(st.seen, c.settings)
    && (forall id :: id in st.completed ==> st.completed[id].at <= st.wall)
    && forall id :: id in st.completed && Fresh(c, st, id) ==>
         Retained(st.seen, id, st.completed[id].at + c.settings.ttl, st.completed[id].touched)
  }

  ghost predicate Inv(c: Config, st: State) {
    LocksHeld(c, st) && LocksOwned(st) && Logged(st) && Remembered(c, st)
  }

  // ---- the cache keeps what it must --------------------------------------------------------------

  lemma TouchedGrows(t: set<string>, id: string, max: nat)
    requires |t + {id}| < max
    ensures |t| < max
  {
    SubsetCard(t, t + {id});
  }

  lemma AskRemembers(c: Config, st: State, id: string, shared: bool, st': State)
    requires Remembered(c, st)
    requires st'.seen == Asked(st.seen, c.settings, id, st.wall, shared).0
    requires st'.wall == st.wall && st'.completed == Touch(st.completed, id)
    ensures Remembered(c, st')
  {
    hide Asked, Retained, Sized;
    AskedSized(st.seen, c.settings, id, st.wall, shared);
    forall x | x in st'.completed && Fresh(c, st', x)
      ensures Retained(st'.seen, x, st'.completed[x].at + c.settings.ttl, st'.completed[x].touched)
    {
      var until, touched := st.completed[x].at + c.settings.ttl, st.completed[x].touched;
      if x == id {
        RetainedIsFound(st.seen, c.settings, st.wall, x, until, touched, shared);
      } else {
        TouchedGrows(touched, id, c.settings.max);
        AskKeeps(st.seen, c.settings, st.wall, x, until, touched, id, shared);
      }
    }
  }

  lemma AddRemembers(c: Config, st: State, id: string, st': State)
    requires Remembered(c, st)
    requires st'.seen == Added(st.seen, c.settings, id, st.wall) && st'.wall == st.wall
    requires st'.completed == Touch(st.completed, id) || st'.completed == Touch(st.completed, id)[id := Completion(st.wall, {})]
    ensures Remembered(c, st')
  {
    hide Retained, Remember, Evict;
    AddedSized(st.seen, c.settings, id, st.wall);
    forall x | x in st'.completed && Fresh(c, st', x)
      ensures Retained(st'.seen, x, st'.completed[x].at + c.settings.ttl, st'.completed[x].touched)
    {
      if x == id {
        AddRetains(st.seen, c.settings, id, st.wall);
        if st'.completed[x] != Completion(st.wall, {}) {
          AddAgain(st.seen, c.settings, id, st.completed[x].at + c.settings.ttl, st.completed[x].touched, st.wall);
        }
      } else {
        var until, touched := st.completed[x].at + c.settings.ttl, st.completed[x].touched;
        TouchedGrows(touched, id, c.settings.max);
        RememberKeeps(st.seen, c.settings, x, until, touched, id, st.wall + c.settings.ttl);
      }
    }
  }

  /** Adding a retained id again extends its time. */
  lemma AddAgain(m: Memory, s: Settings, id: string, until: real, touched: set<string>, now: real)
    requires Sized(m, s) && s.max > 0 && now < until
    requires until <= now + s.ttl
    ensures Retained(Added(m, s, id, now), id, until, touched)
  {
    AddRetains(m, s, id, now);
  }

  // ---- every step keeps the invariant ------------------------------------------------------------

  lemma OfferKeeps(c: Config, st: State, id: string, shared: bool, passes: bool, st': State)
    requires Inv(c, st) && Next(c, st, Offer(id, shared, passes), st') && c.lockTtl > 0
    requires RedeliveryIsSoon(c, st, id)
    ensures Inv(c, st')
  {
    hide Asked, Retained, Sized, Added, Distinct;
    AskRemembers(c, st, id, shared, st');
    if id in st.completed {
      RetainedIsFound(st.seen, c.settings, st.wall, id, st.completed[id].at + c.settings.ttl, st.completed[id].touched, shared);
    }
    if |st'.deliveries| == |st.deliveries| {
      assert st'.deliveries == st.deliveries;
      assert LocksHeld(c, st');
    } else {
      var d := st'.deliveries[|st.deliveries|];
      assert id !in st.completed && d.id == id;
      assert !PL.Live(st.locks, id, st.clock);
      assert forall k :: 0 <= k < |st.deliveries| ==> st'.deliveries[k] == st.deliveries[k];
      assert forall k :: 0 <= k < |st.deliveries| && InFlight(st.deliveries[k].place) ==>
        PL.Live(st.locks, st.deliveries[k].id, st.clock);
      assert LocksHeld(c, st');
    }
    OwnedGrows(st.deliveries, st'.deliveries);
    HandledGrows(st.deliveries, st'.deliveries);
    forall x | PL.Live(st'.locks, x, st'.clock)
      ensures Owned(st'.deliveries, x)
    {
      if PL.Live(st.locks, x, st.clock) {
        assert Owned(st.deliveries, x);
      } else {
        assert st'.deliveries[|st.deliveries|].id == x;
      }
    }
  }

  lemma OwnedGrows(ds: seq<Delivery>, ds': seq<Delivery>)
    requires ds <= ds'
    ensures forall id :: Owned(ds, id) ==> Owned(ds', id)
  {
    forall id | Owned(ds, id)
      ensures Owned(ds', id)
    {
      var k :| 0 <= k < |ds| && ds[k].id == id && ds[k].place != Done;
      assert ds'[k] == ds[k];
    }
  }

  lemma HandledGrows(ds: seq<Delivery>, ds': seq<Delivery>)
    requires ds <= ds'
    ensures forall id :: Handled(ds, id) ==> Handled(ds', id)
  {
    forall id | Handled(ds, id)
      ensures Handled(ds', id)
    {
      var k :| 0 <= k < |ds| && ds[k].id == id && ds[k].place in {InHandler, MarkedSeen};
      assert ds'[k] == ds[k];
    }
  }

  /** Changing the place of one delivery. */
  lemma ReplaceOwned(ds: seq<Delivery>, k: nat, to: Place)
    requires k < |ds|
    ensures var ds' := ds[k := ds[k].(place := to)];
      && (to != Done ==> forall id :: Owned(ds, id) ==> Owned(ds', id))
      && (forall id :: id != ds[k].id && Owned(ds, id) ==> Owned(ds', id))
      && (to in {InHandler, MarkedSeen} || ds[k].place !in {InHandler, MarkedSeen} ==>
            forall id :: Handled(ds, id) ==> Handled(ds', id))
      && (forall id :: id != ds[k].id && Handled(ds, id) ==> Handled(ds', id))
  {
    var ds' := ds[k := ds[k].(place := to)];
    assert forall i :: 0 <= i < |ds| ==> ds'[i].id == ds[i].id && (i != k ==> ds'[i] == ds[i]);
    forall id | Owned(ds, id) && (to != Done || id != ds[k].id)
      ensures Owned(ds', id)
    {
      var i :| 0 <= i < |ds| && ds[i].id == id && ds[i].place != Done;
      assert ds'[i].id == id && ds'[i].place != Done;
    }
    forall id | Handled(ds, id) && (to in {InHandler, MarkedSeen} || ds[k].place !in {InHandler, MarkedSeen} || id != ds[k].id)
      ensures Handled(ds', id)
    {
      var i :| 0 <= i < |ds| && ds[i].id == id && ds[i].place in {InHandler, MarkedSeen};
      assert ds'[i].id == id && ds'[i].place in {InHandler, MarkedSeen};
    }
  }

  lemma MovedOwned(ds: seq<Delivery>, ds': seq<Delivery>)
    requires |ds'| == |ds|
    requires forall k :: 0 <= k < |ds| ==> ds'[k].id == ds[k].id && CanMove(ds[k].place, ds'[k].place)
    ensures forall id :: Owned(ds, id) ==> Owned(ds', id)
    ensures forall id :: Handled(ds, id) ==> Handled(ds', id)
  {
    forall id | Owned(ds, id)
      ensures Owned(ds', id)
    {
      var k :| 0 <= k < |ds| && ds[k].id == id && ds[k].place != Done;
      assert ds'[k].id == id && ds'[k].place != Done;
    }
    forall id | Handled(ds, id)
      ensures Handled(ds', id)
    {
      var k :| 0 <= k < |ds| && ds[k].id == id && ds[k].place in {InHandler, MarkedSeen};
      assert ds'[k].id == id && ds'[k].place == ds[k].place;
    }
  }

  lemma MoveKeeps(c: Config, st: State, places: seq<Place>, st': State)
    requires Inv(c, st) && Next(c, st, Move(places), st')
    ensures Inv(c, st')
  {
    hide Retained, Sized, Distinct, Owned, Handled;
    var ds, ds' := st.deliveries, st'.deliveries;
    assert forall k :: 0 <= k < |ds| ==> ds'[k] == ds[k].(place := places[k]) && CanMove(ds[k].place, places[k]);
    MovedOwned(ds, ds');
  }

  /** The handler of an id starts only if it never started before. */
  lemma EnterKeeps(c: Config, st: State, k: nat, st': State)
    requires Inv(c, st) && Next(c, st, Enter(k), st')
    ensures Inv(c, st')
  {
    hide Retained, Sized;
    ReplaceOwned(st.deliveries, k, InHandler);
    var id := st.deliveries[k].id;
    assert st'.deliveries[k].id == id && st'.deliveries[k].place == InHandler;
    assert Handled(st'.deliveries, id);
    assert id !in st.entered;
    assert forall i :: 0 <= i < |st.entered| ==> st'.entered[i] == st.entered[i];
  }

  lemma MarkKeeps(c: Config, st: State, k: nat, st': State)
    requires Inv(c, st) && Next(c, st, Mark(k), st')
    ensures Inv(c, st')
  {
    hide Retained, Sized, Distinct;
    ReplaceOwned(st.deliveries, k, MarkedSeen);
    AddRemembers(c, st, st.deliveries[k].id, st');
  }

  lemma ReleaseKeeps(c: Config, st: State, k: nat, st': State)
    requires Inv(c, st) && Next(c, st, Release(k), st')
    ensures Inv(c, st')
  {
    hide Retained, Sized, Distinct;
    ReplaceOwned(st.deliveries, k, Done);
    var id := st.deliveries[k].id;
    assert st.deliveries[k].place == MarkedSeen;
    assert forall x, t :: x != id ==> (PL.Live(st'.locks, x, t) <==> PL.Live(st.locks, x, t));
    assert forall i :: 0 <= i < |st.deliveries| && i != k && InFlight(st.deliveries[i].place) ==> st.deliveries[i].id != id;
  }

  lemma TickKeeps(c: Config, st: State, clock: int, wall: real, st': State)
    requires Inv(c, st) && Next(c, st, Tick(clock, wall), st') && ProcessingIsShort(c, st')
    ensures Inv(c, st')
  {
    hide Retained, Sized, Distinct;
    assert forall id :: PL.Live(st.locks, id, clock) ==> PL.Live(st.locks, id, st.clock);
  }

  lemma LightKeeps(c: Config, st: State, step: Step, st': State)
    requires Inv(c, st) && Next(c, st, step, st') && (step.LightAsk? || step.LightAdd?)
    ensures Inv(c, st')
  {
    hide Retained, Sized, Distinct, Asked, Added;
    if step.LightAsk? {
      AskRemembers(c, st, step.id, step.shared, st');
    } else {
      AddRemembers(c, st, step.id, st');
    }
  }

  lemma NextKeeps(c: Config, st: State, step: Step, st': State)
    requires Inv(c, st) && Next(c, st, step, st') && Assumed(c, st, step, st') && c.lockTtl > 0
    ensures Inv(c, st')
  {
    hide Next, Inv;
    match step {
      case Tick(clock, wall) => TickKeeps(c, st, clock, wall, st');
      case Offer(id, shared, passes) => OfferKeeps(c, st, id, shared, passes, st');
      case LightAsk(_, _) => LightKeeps(c, st, step, st');
      case LightAdd(_) => LightKeeps(c, st, step, st');
      case Move(places) => MoveKeeps(c, st, places, st');
      case Enter(k) => EnterKeeps(c, st, k, st');
      case Mark(k) => MarkKeeps(c, st, k, st');
      case Release(k) => ReleaseKeeps(c, st, k, st');
    }
  }

  // ---- runs --------------------------------------------------------------------------------------

  /** A run of the pipeline, whether or not the assumptions hold. */
  ghost predicate Run(c: Config, states: seq<State>, steps: seq<Step>) {
    && |states| == |steps| + 1
    && states[0] == Init(states[0].wall)
    && forall i :: 0 <= i < |steps| ==> Next(c, states[i], steps[i], states[i + 1])
  }

  ghost predicate AssumedRun(c: Config, states: seq<State>, steps: seq<Step>) {
    Run(c, states, steps) && forall i :: 0 <= i < |steps| ==> Assumed(c, states[i], steps[i], states[i + 1])
  }

  lemma {:induction false} RunKeepsInv(c: Config, states: seq<State>, steps: seq<Step>, n: nat)
    requires AssumedRun(c, states, steps) && n < |states| && c.lockTtl > 0
    ensures Inv(c, states[n])
  {
    hide Next, Inv, Assumed;
    if n == 0 {
      InitInv(c, states[0].wall);
    } else {
      RunKeepsInv(c, states, steps, n - 1);
      NextKeeps(c, states[n - 1], steps[n - 1], states[n]);
    }
  }

  lemma InitInv(c: Config, wall: real)
    ensures Inv(c, Init(wall))
  {
  }

  /** In every run that respects the assumptions, no id reaches a handler twice, an id has at most one
      delivery in flight, and every delivery in flight holds a live lock. */
  lemma AtMostOnce(c: Config, states: seq<State>, steps: seq<Step>, n: nat)
    requires AssumedRun(c, states, steps) && n < |states| && c.lockTtl > 0
    ensures Distinct(states[n].entered)
    ensures OnePerId(states[n].deliveries)
    ensures forall k :: 0 <= k < |states[n].deliveries| && InFlight(states[n].deliveries[k].place) ==>
      PL.Live(states[n].locks, states[n].deliveries[k].id, states[n].clock)
    ensures forall id :: PL.Live(states[n].locks, id, states[n].clock) ==> Owned(states[n].deliveries, id)
  {
    RunKeepsInv(c, states, steps, n);
  }

  // ---- the end of a batch ------------------------------------------------------------------------

  /** Every delivery of a batch is in its handler, and `ids` are their ids. */
  ghost predicate Batched(st: State, ks: seq<nat>, ids: seq<string>) {
    && |ks| == |ids| && (forall i, j :: 0 <= i < j < |ks| ==> ks[i] != ks[j])
    && forall i :: 0 <= i < |ks| ==> ks[i] < |st.deliveries| && st.deliveries[ks[i]].id == ids[i] && st.deliveries[ks[i]].place == InHandler
  }

  /** After the first `n` of them were marked and released. */
  ghost predicate FinishedSoFar(st: State, ks: seq<nat>, ids: seq<string>, m: Memory, n: nat, st': State)
    requires n <= |ks| == |ids|
  {
    && st'.seen == m && st'.locks == st.locks - (set id | id in ids[..n])
    && st'.clock == st.clock && st'.wall == st.wall && st'.entered == st.entered && |st'.deliveries| == |st.deliveries|
    && forall k :: 0 <= k < |st.deliveries| ==>
         st'.deliveries[k] == if k in ks[..n] then st.deliveries[k].(place := Done) else st.deliveries[k]
  }

  /** What marking and releasing one delivery leaves. */
  function OneFinished(c: Config, st: State, k: nat, place: Place): State
    requires k < |st.deliveries|
  {
    var id := st.deliveries[k].id;
    st.(deliveries := st.deliveries[k := st.deliveries[k].(place := place)], seen := Added(st.seen, c.settings, id, st.wall),
        locks := if place == Done then st.locks - {id} else st.locks,
        completed := Touch(st.completed, id)[id := Completion(st.wall, {})])
  }

  lemma OneFinishes(c: Config, st: State, k: nat)
    requires Sized(st.seen, c.settings) && k < |st.deliveries| && st.deliveries[k].place == InHandler
    ensures Next(c, st, Mark(k), OneFinished(c, st, k, MarkedSeen))
    ensures Next(c, OneFinished(c, st, k, MarkedSeen), Release(k), OneFinished(c, st, k, Done))
    ensures Sized(OneFinished(c, st, k, Done).seen, c.settings)
  {
    hide Added, Sized, Touch;
    AddedSized(st.seen, c.settings, st.deliveries[k].id, st.wall);
    var marked := OneFinished(c, st, k, MarkedSeen);
    assert OneFinished(c, st, k, Done).deliveries == marked.deliveries[k := marked.deliveries[k].(place := Done)];
  }

  lemma NextFinished(c: Config, st: State, ks: seq<nat>, ids: seq<string>, m: Memory, n: nat, st': State)
    requires n < |ks| && Batched(st, ks, ids) && FinishedSoFar(st, ks, ids, m, n, st')
    ensures ks[n] < |st'.deliveries| && st'.deliveries[ks[n]].place == InHandler && st'.deliveries[ks[n]].id == ids[n]
    ensures FinishedSoFar(st, ks, ids, Added(m, c.settings, ids[n], st.wall), n + 1, OneFinished(c, st', ks[n], Done))
  {
    hide Added, Touch;
    assert ids[..n + 1] == ids[..n] + [ids[n]];
    assert ks[..n + 1] == ks[..n] + [ks[n]];
  }

  /** What the gate does at the end of a batch is a run: each delivery in turn is marked and released. The
      memories are the ones the gate goes through. */
  lemma {:induction false} BatchFinishes(c: Config, st: State, ks: seq<nat>, ids: seq<string>, mems: seq<Memory>, n: nat)
    returns (states: seq<State>, steps: seq<Step>)
    requires Sized(st.seen, c.settings) && Batched(st, ks, ids) && n <= |ks|
    requires AddsInTurn(mems, c.settings, ids, st.wall) && mems[0] == st.seen
    ensures |steps| == 2 * n && |states| == |steps| + 1 && states[0] == st
    ensures forall i :: 0 <= i < |steps| ==> Next(c, states[i], steps[i], states[i + 1])
    ensures forall i :: 0 <= i < n ==> steps[2 * i] == Mark(ks[i]) && steps[2 * i + 1] == Release(ks[i])
    ensures FinishedSoFar(st, ks, ids, mems[n], n, states[|steps|]) && Sized(states[|steps|].seen, c.settings)
  {
    if n == 0 {
      states, steps := [st], [];
    } else {
      hide Next, Sized, Batched, Added;
      states, steps := BatchFinishes(c, st, ks, ids, mems, n - 1);
      var last, k := states[|steps|], ks[n - 1];
      NextFinished(c, st, ks, ids, mems[n - 1], n - 1, last);
      OneFinishes(c, last, k);
      states, steps := FinishOne(c, states, steps, k);
    }
  }

  lemma FinishOne(c: Config, states: seq<State>, steps: seq<Step>, k: nat) returns (states': seq<State>, steps': seq<Step>)
    requires |states| == |steps| + 1 && forall i :: 0 <= i < |steps| ==> Next(c, states[i], steps[i], states[i + 1])
    requires k < |states[|steps|].deliveries|
    requires Next(c, states[|steps|], Mark(k), OneFinished(c, states[|steps|], k, MarkedSeen))
    requires Next(c, OneFinished(c, states[|steps|], k, MarkedSeen), Release(k), OneFinished(c, states[|steps|], k, Done))
    ensures steps' == steps + [Mark(k), Release(k)] && |states'| == |steps'| + 1
    ensures states <= states' && states'[|steps'|] == OneFinished(c, states[|steps|], k, Done)
    ensures forall i :: 0 <= i < |steps'| ==> Next(c, states'[i], steps'[i], states'[i + 1])
  {
    hide Next, OneFinished;
    var last := states[|steps|];
    states' := states + [OneFinished(c, last, k, MarkedSeen), OneFinished(c, last, k, Done)];
    steps' := steps + [Mark(k), Release(k)];
    forall i | 0 <= i < |steps'|
      ensures Next(c, states'[i], steps'[i], states'[i + 1])
    {
      if i < |steps| {
        assert states'[i] == states[i] && states'[i + 1] == states[i + 1] && steps'[i] == steps[i];
      }
    }
  }

  // ---- exactly when it holds -----------------------------------------------------------------------

  /** What the surroundings keep to: every delivery is handled within `within` milliseconds, and an id
      that was completed comes again only within `age` seconds and before `others` other ids. */
  datatype Terms = Terms(within: int, age: real, others: nat)

  predicate Within(t: Terms, st: State) {
    forall k :: 0 <= k < |st.deliveries| && InFlight(st.deliveries[k].place) ==> st.clock < st.deliveries[k].since + t.within
  }

  predicate Soon(t: Terms, st: State, id: string) {
    id in st.completed ==> st.wall < st.completed[id].at + t.age && |st.completed[id].touched| < t.others
  }

  ghost predicate Keeps(t: Terms, states: seq<State>, steps: seq<Step>) {
    && |states| == |steps| + 1
    && (forall i :: 0 <= i < |states| ==> Within(t, states[i]))
    && forall i :: 0 <= i < |steps| && steps[i].Offer? ==> Soon(t, states[i], steps[i].id)
  }

  /** The terms fit the configuration: handling ends before the lock expires, and an id comes again only
      while the cache must know it (or never). With no time for handling nothing is ever delivered. */
  predicate Fits(c: Config, t: Terms) {
    || t.within <= 0
    || (t.within <= c.lockTtl && ((t.age <= c.settings.ttl && t.others <= c.settings.max) || t.age <= 0.0 || t.others == 0))
  }

  lemma TermsSuffice(c: Config, t: Terms, st: State, step: Step, st': State)
    requires Inv(c, st) && 0 < t.within && Fits(c, t) && Within(t, st')
    requires step.Offer? ==> Soon(t, st, step.id)
    ensures Assumed(c, st, step, st')
  {
    hide Retained, Sized, LocksOwned, Logged;
  }

  lemma {:induction false} KeptRunInv(c: Config, t: Terms, states: seq<State>, steps: seq<Step>, n: nat)
    requires Run(c, states, steps) && Keeps(t, states, steps) && 0 < t.within && Fits(c, t) && n < |states|
    ensures Inv(c, states[n])
  {
    hide Next, Inv, Assumed, Within, Soon;
    if n == 0 {
      InitInv(c, states[0].wall);
    } else {
      KeptRunInv(c, t, states, steps, n - 1);
      TermsSuffice(c, t, states[n - 1], steps[n - 1], states[n]);
      NextKeeps(c, states[n - 1], steps[n - 1], states[n]);
    }
  }

  lemma OneIsLate(t: Terms, st: State, d: Delivery)
    requires t.within <= 0 && d.since == st.clock && InFlight(d.place)
    ensures st.deliveries == [d] ==> !Within(t, st)
  {
    if st.deliveries == [d] {
      assert st.deliveries[0] == d;
    }
  }

  lemma NoTimeNext(c: Config, t: Terms, st: State, step: Step, st': State)
    requires st.deliveries == [] && st.entered == [] && Next(c, st, step, st') && Within(t, st') && t.within <= 0
    ensures st'.deliveries == [] && st'.entered == []
  {
    hide Admission, Touch, Asked, Added;
    if step.Offer? {
      OneIsLate(t, st', Delivery(step.id, st.clock, Gated));
      assert [] + [Delivery(step.id, st.clock, Gated)] == [Delivery(step.id, st.clock, Gated)];
    }
  }

  /** Without time for handling there is no delivery at all. */
  lemma {:induction false} NoTimeNoDelivery(c: Config, t: Terms, states: seq<State>, steps: seq<Step>, n: nat)
    requires Run(c, states, steps) && Keeps(t, states, steps) && t.within <= 0 && n < |states|
    ensures states[n].deliveries == [] && states[n].entered == []
  {
    if n > 0 {
      hide Next, Within;
      NoTimeNoDelivery(c, t, states, steps, n - 1);
      assert Next(c, states[n - 1], steps[n - 1], states[n - 1 + 1]) && Within(t, states[n]);
      NoTimeNext(c, t, states[n - 1], steps[n - 1], states[n]);
    }
  }

  // ---- runs that break it --------------------------------------------------------------------------

  /** A step that uses no queue: the handler starts straight from the gate. */
  predicate Plain(st: State, step: Step) {
    && !step.Move?
    && (step.Enter? ==> step.k < |st.deliveries| && st.deliveries[step.k].place == Gated)
  }

  ghost predicate AllPlain(states: seq<State>, steps: seq<Step>) {
    |states| == |steps| + 1 && forall i :: 0 <= i < |steps| ==> Plain(states[i], steps[i])
  }

  /** A run that keeps to the terms, uses no queue, and ends in `st`. */
  ghost predicate Reaches(c: Config, t: Terms, states: seq<State>, steps: seq<Step>, st: State) {
    Run(c, states, steps) && Keeps(t, states, steps) && AllPlain(states, steps) && states[|steps|] == st
  }

  lemma Extend(c: Config, t: Terms, states: seq<State>, steps: seq<Step>, st: State, step: Step, st': State)
    returns (states': seq<State>, steps': seq<Step>)
    requires Reaches(c, t, states, steps, st) && Next(c, st, step, st') && Within(t, st')
    requires (step.Offer? ==> Soon(t, st, step.id)) && Plain(st, step)
    ensures Reaches(c, t, states', steps', st')
  {
    hide Next, Within, Soon, Plain;
    states', steps' := states + [st'], steps + [step];
    forall i | 0 <= i < |steps'|
      ensures Next(c, states'[i], steps'[i], states'[i + 1])
      ensures (steps'[i].Offer? ==> Soon(t, states'[i], steps'[i].id)) && Plain(states'[i], steps'[i])
    {
      if i < |steps| {
        assert states'[i] == states[i] && states'[i + 1] == states[i + 1] && steps'[i] == steps[i];
      }
    }
    forall i | 0 <= i < |states'|
      ensures Within(t, states'[i])
    {
      assert i < |states| ==> states'[i] == states[i];
    }
  }

  lemma Starts(c: Config, t: Terms)
    ensures Reaches(c, t, [Init(0.0)], [], Init(0.0))
  {
  }

  /** An id that the cache does not report and nobody locks is accepted. */
  function Accept(c: Config, st: State, id: string): State
    requires Sized(st.seen, c.settings)
  {
    st.(locks := st.locks[id := st.clock + c.lockTtl],
        seen := Asked(st.seen, c.settings, id, st.wall, false).0,
        deliveries := st.deliveries + [Delivery(id, st.clock, Gated)],
        completed := Touch(st.completed, id))
  }

  function Put(st: State, k: nat, place: Place): State
    requires k < |st.deliveries|
  {
    st.(deliveries := st.deliveries[k := st.deliveries[k].(place := place)])
  }

  lemma AcceptIsOffer(c: Config, st: State, id: string)
    requires Sized(st.seen, c.settings) && !PL.Live(st.locks, id, st.clock)
    requires !Asked(st.seen, c.settings, id, st.wall, false).1
    ensures Next(c, st, Offer(id, false, true), Accept(c, st, id))
  {
    var st' := Accept(c, st, id);
    assert Admission(c.settings, c.lockTtl, id, st.clock, st.wall, false, true,
                     st.locks, st.seen, st'.locks, st'.seen, true);
  }

  lemma AskedUnknown(c: Config, st: State, id: string)
    requires Sized(st.seen, c.settings)
    requires id in st.seen.ids.vals ==> st.seen.ids.vals[id] <= st.wall
    ensures !Asked(st.seen, c.settings, id, st.wall, false).1
    ensures id !in Asked(st.seen, c.settings, id, st.wall, false).0.ids.vals
    ensures Sized(Asked(st.seen, c.settings, id, st.wall, false).0, c.settings)
  {
    AskedSized(st.seen, c.settings, id, st.wall, false);
  }

  /** The id comes for the second time, and its handler starts for the second time. */
  lemma SecondTime(c: Config, t: Terms, states: seq<State>, steps: seq<Step>, st: State, id: string)
    returns (states': seq<State>, steps': seq<Step>)
    requires Reaches(c, t, states, steps, st) && Soon(t, st, id) && 0 < t.within
    requires Sized(st.seen, c.settings) && !PL.Live(st.locks, id, st.clock)
    requires id in st.seen.ids.vals ==> st.seen.ids.vals[id] <= st.wall
    requires st.entered == [id]
    ensures Run(c, states', steps') && Keeps(t, states', steps') && AllPlain(states', steps') && !Distinct(states'[|steps'|].entered)
  {
    hide Run, Keeps, AllPlain, Soon, Asked, Touch;
    AskedUnknown(c, st, id);
    AcceptIsOffer(c, st, id);
    var s1 := Accept(c, st, id);
    var k := |st.deliveries|;
    assert Within(t, s1) by { assert Within(t, st) by { ReachedWithin(c, t, states, steps, st); } }
    states', steps' := Extend(c, t, states, steps, st, Offer(id, false, true), s1);
    var s2 := Put(s1, k, InHandler).(entered := [id, id]);
    assert s1.entered + [id] == [id, id];
    assert Next(c, s1, Enter(k), s2) && Within(t, s2);
    states', steps' := Extend(c, t, states', steps', s1, Enter(k), s2);
    assert s2.entered[0] == s2.entered[1];
  }

  lemma ReachedWithin(c: Config, t: Terms, states: seq<State>, steps: seq<Step>, st: State)
    requires Reaches(c, t, states, steps, st)
    ensures Within(t, st)
  {
  }

  /** The handler of "m" has started, for the first time. */
  function FirstStart(c: Config): State {
    State(0, 0.0, map["m" := c.lockTtl], Asked(Init(0.0).seen, c.settings, "m", 0.0, false).0,
          [Delivery("m", 0, InHandler)], ["m"], map[])
  }

  lemma FirstTime(c: Config, t: Terms) returns (states: seq<State>, steps: seq<Step>)
    requires 0 < t.within
    ensures Reaches(c, t, states, steps, FirstStart(c))
    ensures Sized(FirstStart(c).seen, c.settings) && "m" !in FirstStart(c).seen.ids.vals
  {
    hide Run, Keeps, AllPlain, Asked;
    var s0 := Init(0.0);
    Starts(c, t);
    AskedUnknown(c, s0, "m");
    AcceptIsOffer(c, s0, "m");
    var s1 := Accept(c, s0, "m");
    assert Touch(map[], "m") == map[];
    assert s1 == State(0, 0.0, map["m" := c.lockTtl], FirstStart(c).seen, [Delivery("m", 0, Gated)], [], map[]);
    states, steps := Extend(c, t, [s0], [], s0, Offer("m", false, true), s1);
    assert Next(c, s1, Enter(0), FirstStart(c));
    states, steps := Extend(c, t, states, steps, s1, Enter(0), FirstStart(c));
  }

  /** A handler that outlives its lock is started again, although the id was never completed. */
  lemma SlowHandlerRunsTwice(c: Config, t: Terms) returns (states: seq<State>, steps: seq<Step>)
    requires 0 < t.within && c.lockTtl < t.within
    ensures Run(c, states, steps) && Keeps(t, states, steps) && AllPlain(states, steps) && !Distinct(states[|steps|].entered)
  {
    hide Run, Keeps, AllPlain;
    states, steps := FirstTime(c, t);
    var late := if c.lockTtl < 0 then 0 else c.lockTtl;
    var st := FirstStart(c).(clock := late);
    states, steps := Extend(c, t, states, steps, FirstStart(c), Tick(late, 0.0), st);
    states, steps := SecondTime(c, t, states, steps, st, "m");
  }

  /** "m" is completed. */
  function Completed(c: Config): State {
    FirstStart(c).(deliveries := [Delivery("m", 0, Done)], locks := map[],
                   seen := Added(FirstStart(c).seen, c.settings, "m", 0.0), completed := map["m" := Completion(0.0, {})])
  }

  lemma Completes(c: Config, t: Terms) returns (states: seq<State>, steps: seq<Step>)
    requires 0 < t.within
    ensures Reaches(c, t, states, steps, Completed(c)) && Sized(Completed(c).seen, c.settings)
  {
    hide Run, Keeps, AllPlain, Asked, Added;
    states, steps := FirstTime(c, t);
    var s2 := FirstStart(c);
    AddedSized(s2.seen, c.settings, "m", 0.0);
    var s3 := Completed(c).(deliveries := [Delivery("m", 0, MarkedSeen)], locks := s2.locks);
    assert Touch(map[], "m")["m" := Completion(0.0, {})] == map["m" := Completion(0.0, {})];
    assert Next(c, s2, Mark(0), s3);
    states, steps := Extend(c, t, states, steps, s2, Mark(0), s3);
    assert s3.locks - {"m"} == map[];
    assert Next(c, s3, Release(0), Completed(c));
    states, steps := Extend(c, t, states, steps, s3, Release(0), Completed(c));
  }

  /** An id that comes again after its entry in the cache has expired is handled again. */
  lemma LateRedeliveryRunsTwice(c: Config, t: Terms) returns (states: seq<State>, steps: seq<Step>)
    requires 0 < t.within && c.settings.ttl < t.age && 0.0 < t.age && 0 < t.others
    ensures Run(c, states, steps) && Keeps(t, states, steps) && AllPlain(states, steps) && !Distinct(states[|steps|].entered)
  {
    hide Run, Keeps, AllPlain;
    states, steps := Completes(c, t);
    var late := if c.settings.ttl < 0.0 then 0.0 else c.settings.ttl;
    var st := Completed(c).(wall := late);
    AddedUntil(c);
    states, steps := Extend(c, t, states, steps, Completed(c), Tick(0, late), st);
    states, steps := SecondTime(c, t, states, steps, st, "m");
  }

  lemma AddedUntil(c: Config)
    ensures "m" in Completed(c).seen.ids.vals ==> Completed(c).seen.ids.vals["m"] == c.settings.ttl
  {
    hide Evict;
    var m := FirstStart(c).seen;
    AskedUnknown(c, Init(0.0), "m");
    PutLastValid(m.ids, "m", 0.0 + c.settings.ttl);
    EvictValid(PutLast(m.ids, "m", 0.0 + c.settings.ttl), c.settings.max);
  }

  function Name(i: nat): (name: string)
    ensures name != "m" && |name| == i + 2
  {
    seq(i + 2, _ => 'x')
  }

  function Names(n: nat): (names: seq<string>)
    ensures |names| == n && forall i :: 0 <= i < n ==> names[i] == Name(i)
  {
    seq(n, i requires 0 <= i < n => Name(i))
  }

  function NameSet(n: nat): (names: set<string>)
    ensures |names| == n && forall x :: x in names ==> |x| < n + 2
  {
    if n == 0 then {} else NameSet(n - 1) + {Name(n - 1)}
  }

  /** `n` other ids have gone through the cache since. */
  function Filled(c: Config, n: nat): State {
    if n == 0 then Completed(c)
    else
      var st := Filled(c, n - 1);
      st.(seen := Added(st.seen, c.settings, Name(n - 1), 0.0), completed := map["m" := Completion(0.0, NameSet(n))])
  }

  /** The first of more entries than allowed is evicted. */
  lemma FirstIsEvicted(d: ODict<real>, max: nat)
    requires OrderedDict.Valid(d) && |d.keys| > max
    ensures d.keys[0] !in Evict(d, max).vals
  {
    PopFirstValid(d);
    assert d.keys[0] !in PopFirst(d).vals;
    EvictValid(PopFirst(d), max);
  }

  /** As long as the cache knows "m", everything else that was added stands behind it. */
  ghost predicate Behind(m: Memory, n: nat) {
    "m" in m.ids.vals ==> m.ids.keys == ["m"] + Names(n)
  }

  lemma BehindNext(m: Memory, s: Settings, n: nat, now: real)
    requires Sized(m, s) && Behind(m, n)
    ensures Sized(Added(m, s, Name(n), now), s) && Behind(Added(m, s, Name(n), now), n + 1)
  {
    hide Evict, Without, Distinct;
    var x := Name(n);
    AddedSized(m, s, x, now);
    PutLastValid(m.ids, x, now + s.ttl);
    var put := PutLast(m.ids, x, now + s.ttl);
    EvictValid(put, s.max);
    if "m" in Evict(put, s.max).vals {
      WithoutName(m.ids.keys, n);
      if |put.keys| > s.max {
        FirstIsEvicted(put, s.max);
      }
      assert |put.keys| <= s.max;
      NothingEvicted(put, s.max);
    }
  }

  lemma WithoutName(keys: seq<string>, n: nat)
    requires keys == ["m"] + Names(n)
    ensures Without(keys, Name(n)) + [Name(n)] == ["m"] + Names(n + 1)
  {
    assert Name(n) !in keys;
    WithoutIs(keys, Name(n));
  }

  lemma {:induction false} FilledBehind(c: Config, n: nat)
    ensures Sized(Filled(c, n).seen, c.settings) && Behind(Filled(c, n).seen, n)
  {
    hide Sized, Behind, Added, Name, NameSet, Completed;
    if n == 0 {
      CompletedBehind(c);
    } else {
      FilledBehind(c, n - 1);
      BehindNext(Filled(c, n - 1).seen, c.settings, n - 1, 0.0);
    }
  }

  lemma NothingEvicted(d: ODict<real>, max: nat)
    requires |d.keys| <= max
    ensures Evict(d, max) == d
  {
  }

  lemma FirstBehind(m: Memory, s: Settings, now: real)
    requires Sized(m, s) && m.ids.keys == []
    ensures Sized(Added(m, s, "m", now), s) && Behind(Added(m, s, "m", now), 0)
    ensures "m" in Added(m, s, "m", now).ids.vals ==> Added(m, s, "m", now).ids.vals["m"] == now + s.ttl
  {
    AddedSized(m, s, "m", now);
    var put := PutLast(m.ids, "m", now + s.ttl);
    assert put.keys == ["m"] == ["m"] + Names(0);
    PutLastValid(m.ids, "m", now + s.ttl);
    EvictValid(put, s.max);
    if s.max == 0 {
      FirstIsEvicted(put, s.max);
    } else {
      NothingEvicted(put, s.max);
    }
  }

  lemma CompletedBehind(c: Config)
    ensures Sized(Completed(c).seen, c.settings) && Behind(Completed(c).seen, 0)
  {
    AskedUnknown(c, Init(0.0), "m");
    FirstBehind(FirstStart(c).seen, c.settings, 0.0);
  }

  lemma TouchName(n: nat, at: real)
    ensures Touch(map["m" := Completion(at, NameSet(n))], Name(n)) == map["m" := Completion(at, NameSet(n + 1))]
  {
    assert NameSet(n + 1) == NameSet(n) + {Name(n)};
  }

  lemma LightAdds(c: Config, st: State, id: string, st': State)
    requires Sized(st.seen, c.settings)
    requires st' == st.(seen := Added(st.seen, c.settings, id, st.wall), completed := Touch(st.completed, id))
    ensures Next(c, st, LightAdd(id), st')
  {
  }

  ghost predicate Idle(st: State, n: nat) {
    && st.wall == 0.0 && st.clock == 0 && st.locks == map[] && st.entered == ["m"]
    && st.deliveries == [Delivery("m", 0, Done)] && st.completed == map["m" := Completion(0.0, NameSet(n))]
  }

  lemma {:induction false} Fills(c: Config, t: Terms, n: nat) returns (states: seq<State>, steps: seq<Step>)
    requires 0 < t.within
    ensures Reaches(c, t, states, steps, Filled(c, n)) && Idle(Filled(c, n), n)
  {
    hide Reaches, Next, Added, Completed, Sized, Behind, NameSet, Name, Touch;
    if n == 0 {
      states, steps := Completes(c, t);
      CompletedIdle(c);
    } else {
      states, steps := Fills(c, t, n - 1);
      FilledBehind(c, n - 1);
      var st := Filled(c, n - 1);
      TouchName(n - 1, 0.0);
      LightAdds(c, st, Name(n - 1), Filled(c, n));
      states, steps := Extend(c, t, states, steps, st, LightAdd(Name(n - 1)), Filled(c, n));
    }
  }

  lemma CompletedIdle(c: Config)
    ensures Idle(Completed(c), 0)
  {
  }

  /** An id that comes again after `max` others have pushed it out of the cache is handled again. */
  lemma CrowdedOutRunsTwice(c: Config, t: Terms) returns (states: seq<State>, steps: seq<Step>)
    requires 0 < t.within && 0.0 < t.age && c.settings.max < t.others
    ensures Run(c, states, steps) && Keeps(t, states, steps) && AllPlain(states, steps) && !Distinct(states[|steps|].entered)
  {
    hide Run, Keeps, AllPlain, Filled;
    states, steps := Fills(c, t, c.settings.max);
    FilledBehind(c, c.settings.max);
    states, steps := SecondTime(c, t, states, steps, Filled(c, c.settings.max), "m");
  }

  /** Terms that do not fit are broken by a run. */
  lemma Misfit(c: Config, t: Terms) returns (states: seq<State>, steps: seq<Step>)
    requires !Fits(c, t)
    ensures Run(c, states, steps) && Keeps(t, states, steps) && AllPlain(states, steps) && !Distinct(states[|steps|].entered)
  {
    hide Run, Keeps, AllPlain;
    if c.lockTtl < t.within {
      states, steps := SlowHandlerRunsTwice(c, t);
    } else if c.settings.max < t.others {
      states, steps := CrowdedOutRunsTwice(c, t);
    } else {
      states, steps := LateRedeliveryRunsTwice(c, t);
    }
  }

  /** No id reaches a handler twice, in any run that keeps to the terms, if and only if the terms fit the
      configuration. */
  lemma AtMostOnceIff(c: Config, t: Terms)
    ensures Fits(c, t) <==>
      forall states: seq<State>, steps: seq<Step> :: Run(c, states, steps) && Keeps(t, states, steps) ==> Distinct(states[|steps|].entered)
  {
    hide Next, Within, Soon;
    if Fits(c, t) {
      forall states: seq<State>, steps: seq<Step> | Run(c, states, steps) && Keeps(t, states, steps)
        ensures Distinct(states[|steps|].entered)
      {
        if t.within <= 0 {
          NoTimeNoDelivery(c, t, states, steps, |steps|);
        } else {
          KeptRunInv(c, t, states, steps, |steps|);
        }
      }
    } else {
      var states, steps := Misfit(c, t);
    }
  }
}
