/** Events that are only deduplicated: no lock, no queue.

    An event asks the cache, is handled if it was not known, and is added when its handler is done. Other
    events of the same id may ask in between, and any other ids may go through the cache at any time. */
module LightEvents {
  import opened Wrappers
  import opened SeenCache
  import OD = OrderedDict
  import D = Dispatch

  /** One handling of an id. */
  datatype Handling = Handling(id: string, since: real, done: bool)

  datatype State = State(wall: real, seen: Memory, handlings: seq<Handling>, completed: map<string, D.Completion>)

  datatype Step =
    | Tick(wall: real)
    | Push(id: string, shared: bool)      // asks, and is handled if the id is not known
    | Finish(k: nat)                      // the handler is done, well or not; the id is added
    | OtherAsk(id: string, shared: bool)
    | OtherAdd(id: string)

  const INIT := State(0.0, Memory(OD.Empty(), 0.0), [], map[])

  function Hit(s: Settings, st: State, id: string, shared: bool): bool
    requires Sized(st.seen, s)
  {
    Asked(st.seen, s, id, st.wall, shared).1
  }

  ghost predicate Next(s: Settings, st: State, step: Step, st': State) {
    Sized(st.seen, s) &&
    match step
    case Tick(wall) => st.wall <= wall && st' == st.(wall := wall)
    case Push(id, shared) =>
      st' == st.(seen := Asked(st.seen, s, id, st.wall, shared).0, completed := D.Touch(st.completed, id),
                 handlings := if Hit(s, st, id, shared) then st.handlings else st.handlings + [Handling(id, st.wall, false)])
    case Finish(k) =>
      && k < |st.handlings| && !st.handlings[k].done
      && var id := st.handlings[k].id;
         st' == st.(handlings := st.handlings[k := st.handlings[k].(done := true)],
                    seen := Added(st.seen, s, id, st.wall),
                    completed := D.Touch(st.completed, id)[id := D.Completion(st.wall, {})])
    case OtherAsk(id, shared) =>
      st' == st.(seen := Asked(st.seen, s, id, st.wall, shared).0, completed := D.Touch(st.completed, id))
    case OtherAdd(id) =>
      st' == st.(seen := Added(st.seen, s, id, st.wall), completed := D.Touch(st.completed, id))
  }

  ghost predicate Run(s: Settings, states: seq<State>, steps: seq<Step>) {
    && |states| == |steps| + 1 && states[0] == INIT
    && forall i :: 0 <= i < |steps| ==> Next(s, states[i], steps[i], states[i + 1])
  }

  /** No id is handled twice. */
  ghost predicate Once(st: State) {
    forall i, j :: 0 <= i < j < |st.handlings| ==> st.handlings[i].id != st.handlings[j].id
  }

  // ---- the terms -----------------------------------------------------------------------------------

  /** What the surroundings keep to: a handler takes less than `within` seconds; an id that was handled
      comes again only after `gap` seconds; and after it was added, only within `age` seconds and before
      `others` other ids. */
  datatype Terms = Terms(within: real, gap: real, age: real, others: nat)

  ghost predicate Within(t: Terms, st: State) {
    forall k :: 0 <= k < |st.handlings| && !st.handlings[k].done ==> st.wall < st.handlings[k].since + t.within
  }

  ghost predicate Again(t: Terms, st: State, id: string) {
    && (forall k :: 0 <= k < |st.handlings| && st.handlings[k].id == id ==> st.handlings[k].since + t.gap <= st.wall)
    && (id in st.completed ==> st.wall < st.completed[id].at + t.age && |st.completed[id].touched| < t.others)
  }

  ghost predicate Keeps(t: Terms, states: seq<State>, steps: seq<Step>) {
    && |states| == |steps| + 1
    && (forall i :: 0 <= i < |states| ==> Within(t, states[i]))
    && forall i :: 0 <= i < |steps| && steps[i].Push? ==> Again(t, states[i], steps[i].id)
  }

  /** The terms fit: an id comes again only after it was added, while the cache must know it; or it cannot
      come again at all; or nothing is ever handled. */
  predicate Fits(s: Settings, t: Terms) {
    || t.within <= 0.0
    || (t.within <= t.gap
        && ((t.age <= s.ttl && t.others <= s.max) || t.others == 0 || t.within + t.age <= t.gap))
  }

  // ---- terms that fit suffice ----------------------------------------------------------------------

  /** The cache and what must be in it, as the dispatcher sees it. */
  function Memories(st: State): D.State {
    D.State(0, st.wall, map[], st.seen, [], [], st.completed)
  }

  function Conf(s: Settings): D.Config {
    D.Config(0, s)
  }

  /** What was done has been added, and was so in time. */
  ghost predicate DoneIsAdded(t: Terms, st: State) {
    forall k :: 0 <= k < |st.handlings| && st.handlings[k].done ==>
      && st.handlings[k].id in st.completed
      && st.completed[st.handlings[k].id].at < st.handlings[k].since + t.within
  }

  ghost predicate Inv(s: Settings, t: Terms, st: State) {
    Once(st) && DoneIsAdded(t, st) && D.Remembered(Conf(s), Memories(st))
  }

  /** An id that was handled is known when it comes again. */
  lemma HandledIsKnown(s: Settings, t: Terms, st: State, id: string, shared: bool, k: nat)
    requires Inv(s, t, st) && Within(t, st) && Again(t, st, id) && 0.0 < t.within && Fits(s, t)
    requires k < |st.handlings| && st.handlings[k].id == id
    ensures Sized(st.seen, s) && Hit(s, st, id, shared)
  {
    hide Asked, Retained, Sized;
    var until := st.completed[id].at + s.ttl;
    assert D.Fresh(Conf(s), Memories(st), id);
    RetainedIsFound(st.seen, s, st.wall, id, until, st.completed[id].touched, shared);
  }

  lemma PushKeeps(s: Settings, t: Terms, st: State, id: string, shared: bool, st': State)
    requires Inv(s, t, st) && Within(t, st) && Again(t, st, id) && 0.0 < t.within && Fits(s, t)
    requires Next(s, st, Push(id, shared), st')
    ensures Inv(s, t, st')
  {
    D.AskRemembers(Conf(s), Memories(st), id, shared, Memories(st'));
    hide D.Remembered, Asked, Again, Within;
    forall k | 0 <= k < |st.handlings| && st.handlings[k].id == id
      ensures Hit(s, st, id, shared)
    {
      HandledIsKnown(s, t, st, id, shared, k);
    }
  }

  lemma FinishKeeps(s: Settings, t: Terms, st: State, k: nat, st': State)
    requires Inv(s, t, st) && Within(t, st) && Next(s, st, Finish(k), st')
    ensures Inv(s, t, st')
  {
    var id := st.handlings[k].id;
    D.AddRemembers(Conf(s), Memories(st), id, Memories(st'));
    hide D.Remembered, Added;
  }

  lemma OtherKeeps(s: Settings, t: Terms, st: State, step: Step, st': State)
    requires Inv(s, t, st) && Next(s, st, step, st') && (step.OtherAsk? || step.OtherAdd? || step.Tick?)
    ensures Inv(s, t, st')
  {
    if step.OtherAsk? {
      D.AskRemembers(Conf(s), Memories(st), step.id, step.shared, Memories(st'));
    } else if step.OtherAdd? {
      D.AddRemembers(Conf(s), Memories(st), step.id, Memories(st'));
    } else {
      hide Retained;
      assert D.Remembered(Conf(s), Memories(st'));
    }
    hide D.Remembered, Added, Asked;
  }

  lemma {:induction false} RunKeeps(s: Settings, t: Terms, states: seq<State>, steps: seq<Step>, n: nat)
    requires Run(s, states, steps) && Keeps(t, states, steps) && 0.0 < t.within && Fits(s, t) && n < |states|
    ensures Inv(s, t, states[n])
  {
    if n > 0 {
      hide Next, Inv, Within, Again;
      RunKeeps(s, t, states, steps, n - 1);
      assert Next(s, states[n - 1], steps[n - 1], states[n - 1 + 1]);
      match steps[n - 1] {
        case Push(id, shared) => PushKeeps(s, t, states[n - 1], id, shared, states[n]);
        case Finish(k) => FinishKeeps(s, t, states[n - 1], k, states[n]);
        case _ => OtherKeeps(s, t, states[n - 1], steps[n - 1], states[n]);
      }
    }
  }

  lemma NoTimeNext(s: Settings, t: Terms, st: State, step: Step, st': State)
    requires st.handlings == [] && Next(s, st, step, st') && Within(t, st') && t.within <= 0.0
    ensures st'.handlings == []
  {
    hide Asked, Added, D.Touch;
    if step.Push? {
      OneIsLate(t, st', Handling(step.id, st.wall, false));
      assert [] + [Handling(step.id, st.wall, false)] == [Handling(step.id, st.wall, false)];
    }
  }

  lemma OneIsLate(t: Terms, st: State, h: Handling)
    requires t.within <= 0.0 && h.since == st.wall && !h.done
    ensures st.handlings == [h] ==> !Within(t, st)
  {
    if st.handlings == [h] {
      assert st.handlings[0] == h;
    }
  }

  /** Without time for handling nothing is handled. */
  lemma {:induction false} NoTime(s: Settings, t: Terms, states: seq<State>, steps: seq<Step>, n: nat)
    requires Run(s, states, steps) && Keeps(t, states, steps) && t.within <= 0.0 && n < |states|
    ensures states[n].handlings == []
  {
    if n > 0 {
      hide Next, Within, Again;
      NoTime(s, t, states, steps, n - 1);
      assert Next(s, states[n - 1], steps[n - 1], states[n - 1 + 1]);
      NoTimeNext(s, t, states[n - 1], steps[n - 1], states[n]);
    }
  }

  // ---- terms that do not fit are broken by a run ---------------------------------------------------

  ghost predicate Reaches(s: Settings, t: Terms, states: seq<State>, steps: seq<Step>, st: State) {
    Run(s, states, steps) && Keeps(t, states, steps) && states[|steps|] == st
  }

  lemma Extend(s: Settings, t: Terms, states: seq<State>, steps: seq<Step>, st: State, step: Step, st': State)
    returns (states': seq<State>, steps': seq<Step>)
    requires Reaches(s, t, states, steps, st) && Next(s, st, step, st') && Within(t, st')
    requires step.Push? ==> Again(t, st, step.id)
    ensures Reaches(s, t, states', steps', st')
  {
    hide Next, Within, Again;
    states', steps' := states + [st'], steps + [step];
    forall i | 0 <= i < |steps'|
      ensures Next(s, states'[i], steps'[i], states'[i + 1])
      ensures steps'[i].Push? ==> Again(t, states'[i], steps'[i].id)
    {
      if i < |steps| {
        assert states'[i] == states[i] && states'[i + 1] == states[i + 1] && steps'[i] == steps[i];
      }
    }
    forall i | 0 <= i < |states'|
      ensures Within(t, states'[i])
    {
      assert i < |states| ==> states'[i] == states[i];
    }
  }

  lemma Starts(s: Settings, t: Terms)
    ensures Reaches(s, t, [INIT], [], INIT)
  {
  }

  /** The state after "m" was pushed and not known. */
  function Pushed(s: Settings, st: State): State
    requires Sized(st.seen, s)
  {
    st.(seen := Asked(st.seen, s, "m", st.wall, false).0, completed := D.Touch(st.completed, "m"),
        handlings := st.handlings + [Handling("m", st.wall, false)])
  }

  lemma Unknown(s: Settings, m: Memory, wall: real)
    requires Sized(m, s) && ("m" in m.ids.vals ==> m.ids.vals["m"] <= wall)
    ensures !Asked(m, s, "m", wall, false).1 && Sized(Asked(m, s, "m", wall, false).0, s)
    ensures m.ids.keys == [] ==> Asked(m, s, "m", wall, false).0.ids.keys == []
  {
    AskedSized(m, s, "m", wall, false);
    if m.ids.keys == [] {
      assert m.ids.vals.Keys == {};
    }
  }

  /** "m" comes again and is handled a second time. */
  lemma SecondTime(s: Settings, t: Terms, states: seq<State>, steps: seq<Step>, st: State)
    returns (states': seq<State>, steps': seq<Step>)
    requires Reaches(s, t, states, steps, st) && Again(t, st, "m") && 0.0 < t.within
    requires Sized(st.seen, s) && ("m" in st.seen.ids.vals ==> st.seen.ids.vals["m"] <= st.wall)
    requires |st.handlings| == 1 && st.handlings[0].id == "m"
    ensures Run(s, states', steps') && Keeps(t, states', steps') && !Once(states'[|steps'|])
  {
    hide Run, Asked, D.Touch;
    Unknown(s, st.seen, st.wall);
    assert Within(t, st);
    hide Keeps, Again;
    states', steps' := Extend(s, t, states, steps, st, Push("m", false), Pushed(s, st));
    assert Pushed(s, st).handlings[0].id == Pushed(s, st).handlings[1].id;
  }

  /** "m" is being handled since time 0. */
  function Handled(s: Settings): State {
    State(0.0, Asked(INIT.seen, s, "m", 0.0, false).0, [Handling("m", 0.0, false)], map[])
  }

  lemma FirstTime(s: Settings, t: Terms) returns (states: seq<State>, steps: seq<Step>)
    requires 0.0 < t.within
    ensures Reaches(s, t, states, steps, Handled(s))
    ensures Sized(Handled(s).seen, s) && Handled(s).seen.ids.keys == [] && "m" !in Handled(s).seen.ids.vals
  {
    hide Run, Keeps, Asked;
    Starts(s, t);
    Unknown(s, INIT.seen, 0.0);
    assert D.Touch(map[], "m") == map[];
    assert [] + [Handling("m", 0.0, false)] == [Handling("m", 0.0, false)];
    states, steps := Extend(s, t, [INIT], [], INIT, Push("m", false), Handled(s));
  }

  /** It comes again while the first handler runs. */
  lemma EarlyRunsTwice(s: Settings, t: Terms) returns (states: seq<State>, steps: seq<Step>)
    requires 0.0 < t.within && t.gap < t.within
    ensures Run(s, states, steps) && Keeps(t, states, steps) && !Once(states[|steps|])
  {
    hide Run, Keeps, Asked;
    states, steps := FirstTime(s, t);
    var wall := if t.gap < 0.0 then 0.0 else t.gap;
    var st := Handled(s).(wall := wall);
    states, steps := Extend(s, t, states, steps, Handled(s), Tick(wall), st);
    states, steps := SecondTime(s, t, states, steps, st);
  }

  /** "m" was handled and added at time `at`, and `n` other ids were added since. */
  function AddedAt(s: Settings, at: real, n: nat): State {
    if n == 0 then
      State(at, Added(Handled(s).seen, s, "m", at), [Handling("m", 0.0, true)], map["m" := D.Completion(at, {})])
    else
      var st := AddedAt(s, at, n - 1);
      st.(seen := Added(st.seen, s, D.Name(n - 1), at), completed := map["m" := D.Completion(at, D.NameSet(n))])
  }

  lemma {:induction false} Adds(s: Settings, t: Terms, at: real, n: nat) returns (states: seq<State>, steps: seq<Step>)
    requires 0.0 <= at < t.within
    ensures Reaches(s, t, states, steps, AddedAt(s, at, n))
    ensures var st := AddedAt(s, at, n);
      && Sized(st.seen, s) && D.Behind(st.seen, n) && (n == 0 && "m" in st.seen.ids.vals ==> st.seen.ids.vals["m"] == at + s.ttl)
      && st.wall == at && st.handlings == [Handling("m", 0.0, true)] && st.completed == map["m" := D.Completion(at, D.NameSet(n))]
  {
    hide Run, Keeps, Asked, Added, D.Behind, D.Name, D.NameSet, Sized;
    if n == 0 {
      states, steps := FirstTime(s, t);
      var st := Handled(s).(wall := at);
      states, steps := Extend(s, t, states, steps, Handled(s), Tick(at), st);
      D.FirstBehind(st.seen, s, at);
      assert D.Touch(map[], "m")["m" := D.Completion(at, {})] == map["m" := D.Completion(at, {})];
      states, steps := Extend(s, t, states, steps, st, Finish(0), AddedAt(s, at, 0));
      assert D.NameSet(0) == {} by { NoNames(); }
    } else {
      states, steps := Adds(s, t, at, n - 1);
      var st := AddedAt(s, at, n - 1);
      D.BehindNext(st.seen, s, n - 1, at);
      D.TouchName(n - 1, at);
      states, steps := Extend(s, t, states, steps, st, OtherAdd(D.Name(n - 1)), AddedAt(s, at, n));
    }
  }

  lemma NoNames()
    ensures D.NameSet(0) == {}
  {
  }

  /** When to finish the first handling so that the id may come again at all. */
  function FinishAt(t: Terms): real {
    if t.gap < t.age then 0.0 else (t.gap - t.age + t.within) / 2.0
  }

  lemma FinishInTime(t: Terms)
    requires 0.0 < t.within <= t.gap < t.within + t.age
    ensures 0.0 <= FinishAt(t) < t.within && t.gap < FinishAt(t) + t.age && 0.0 < t.age
  {
  }

  /** It comes again after its entry has expired. */
  lemma LateRunsTwice(s: Settings, t: Terms) returns (states: seq<State>, steps: seq<Step>)
    requires 0.0 < t.within <= t.gap < t.within + t.age && 0 < t.others && s.ttl < t.age
    ensures Run(s, states, steps) && Keeps(t, states, steps) && !Once(states[|steps|])
  {
    hide Run, Keeps, Sized;
    FinishInTime(t);
    var at := FinishAt(t);
    states, steps := Adds(s, t, at, 0);
    var wall := if at + s.ttl < t.gap then t.gap else at + s.ttl;
    NoNames();
    states, steps := ComesAgain(s, t, states, steps, at, 0, wall);
  }

  /** It comes again after enough other ids. */
  lemma CrowdedOutRunsTwice(s: Settings, t: Terms) returns (states: seq<State>, steps: seq<Step>)
    requires 0.0 < t.within <= t.gap < t.within + t.age && s.max < t.others
    ensures Run(s, states, steps) && Keeps(t, states, steps) && !Once(states[|steps|])
  {
    hide Run, Keeps, AddedAt;
    FinishInTime(t);
    var at := FinishAt(t);
    states, steps := Adds(s, t, at, s.max);
    states, steps := ComesAgain(s, t, states, steps, at, s.max, t.gap);
  }

  lemma ComesAgain(s: Settings, t: Terms, states: seq<State>, steps: seq<Step>, at: real, n: nat, wall: real)
    returns (states': seq<State>, steps': seq<Step>)
    requires Reaches(s, t, states, steps, AddedAt(s, at, n)) && 0.0 < t.within
    requires var st := AddedAt(s, at, n);
      && Sized(st.seen, s) && ("m" in st.seen.ids.vals ==> st.seen.ids.vals["m"] <= wall)
      && st.wall == at && st.handlings == [Handling("m", 0.0, true)] && st.completed == map["m" := D.Completion(at, D.NameSet(n))]
    requires at <= wall && t.gap <= wall < at + t.age && n < t.others
    ensures Run(s, states', steps') && Keeps(t, states', steps') && !Once(states'[|steps'|])
  {
    hide Run, Keeps, AddedAt, Sized;
    var st := AddedAt(s, at, n).(wall := wall);
    states', steps' := Extend(s, t, states, steps, AddedAt(s, at, n), Tick(wall), st);
    states', steps' := SecondTime(s, t, states', steps', st);
  }

  /** No id is handled twice, in any run that keeps to the terms, if and only if the terms fit. */
  lemma OnceIff(s: Settings, t: Terms)
    ensures Fits(s, t) <==>
      forall states: seq<State>, steps: seq<Step> :: Run(s, states, steps) && Keeps(t, states, steps) ==> Once(states[|steps|])
  {
    hide Next, Within, Again;
    if Fits(s, t) {
      forall states: seq<State>, steps: seq<Step> | Run(s, states, steps) && Keeps(t, states, steps)
        ensures Once(states[|steps|])
      {
        if t.within <= 0.0 {
          NoTime(s, t, states, steps, |steps|);
        } else {
          RunKeeps(s, t, states, steps, |steps|);
        }
      }
    } else if t.gap < t.within {
      var states, steps := EarlyRunsTwice(s, t);
    } else if s.max < t.others {
      var states, steps := CrowdedOutRunsTwice(s, t);
    } else {
      var states, steps := LateRunsTwice(s, t);
    }
  }
}
