/** The session ceiling under concurrent entry calls, as a transition system.

    A step is what happens between two suspension points of an entry call. The gate compares the
    ceiling and reserves nothing, so calls that passed it and have not registered yet are not counted. */
module Admission {
  import opened Wrappers

  datatype Call = Join(meetingNo: string) | Follow

  datatype State = State(
    live: set<string>,             // meetings with a local session
    held: set<string>,             // meetings whose seat is accounted for
    joining: map<string, nat>,     // in-flight joins by meeting number, and the call that owns each
    waiting: map<nat, Call>,       // calls in front of the gate
    admitted: map<nat, Call>,      // calls past the gate that have not registered or failed
    calls: nat)

  const EMPTY := State({}, {}, map[], map[], map[], 0)

  datatype Step =
    | StartJoin(meetingNo: string)      // claims the number before its first await
    | StartFollow
    | Admit(call: nat)
    | Refuse(call: nat)
    | RegisterJoin(call: nat, meeting: string)
    | RegisterFollow(call: nat, meeting: string)
    | Cancel(call: nat)                 // cancelled in front of the gate
    | Fail(call: nat)
    | Dispose(meeting: string)
    | ReleaseSeat(meeting: string)

  function Occupied(st: State): set<string> {
    st.live + st.held
  }

  /** Ending a join gives its number back. */
  function Unclaim(st: State, c: Call): map<string, nat> {
    match c
    case Join(no) => st.joining - {no}
    case Follow => st.joining
  }

  predicate Enabled(ceiling: int, st: State, step: Step) {
    match step
    case StartJoin(no) => no !in st.joining
    case StartFollow => true
    case Admit(c) => c in st.waiting && |Occupied(st)| < ceiling
    case Refuse(c) => c in st.waiting && |Occupied(st)| >= ceiling
    case Cancel(c) => c in st.waiting
    case RegisterJoin(c, meeting) => c in st.admitted && st.admitted[c].Join?
    case RegisterFollow(c, meeting) => c in st.admitted && st.admitted[c].Follow?
    case Fail(c) => c in st.admitted
    case Dispose(_) => true
    case ReleaseSeat(_) => true
  }

  function Next(ceiling: int, st: State, step: Step): State
    requires Enabled(ceiling, st, step)
  {
    match step
    case StartJoin(no) =>
      st.(joining := st.joining[no := st.calls], waiting := st.waiting[st.calls := Join(no)], calls := st.calls + 1)
    case StartFollow =>
      st.(waiting := st.waiting[st.calls := Follow], calls := st.calls + 1)
    case Admit(c) =>
      st.(waiting := st.waiting - {c}, admitted := st.admitted[c := st.waiting[c]])
    case Refuse(c) =>
      st.(waiting := st.waiting - {c}, joining := Unclaim(st, st.waiting[c]))
    case Cancel(c) =>
      st.(waiting := st.waiting - {c}, joining := Unclaim(st, st.waiting[c]))
    case RegisterJoin(c, meeting) =>
      // The seat is accounted for and the session registered without a suspension in between.
      st.(held := st.held + {meeting}, live := st.live + {meeting}, admitted := st.admitted - {c},
          joining := Unclaim(st, st.admitted[c]))
    case RegisterFollow(c, meeting) =>
      st.(live := st.live + {meeting}, admitted := st.admitted - {c})
    case Fail(c) =>
      st.(admitted := st.admitted - {c}, joining := Unclaim(st, st.admitted[c]))
    case Dispose(meeting) => st.(live := st.live - {meeting})
    case ReleaseSeat(meeting) => st.(held := st.held - {meeting})
  }

  /** At most `k` calls are ever past the gate at once. */
  ghost predicate Run(ceiling: int, k: nat, states: seq<State>, steps: seq<Step>) {
    && |states| == |steps| + 1 && states[0] == EMPTY
    && (forall i :: 0 <= i < |steps| ==> Enabled(ceiling, states[i], steps[i]) && states[i + 1] == Next(ceiling, states[i], steps[i]))
    && forall i :: 0 <= i < |states| ==> |states[i].admitted| <= k
  }

  // ---- the bound -----------------------------------------------------------------------------------

  ghost predicate Bounded(ceiling: int, k: nat, st: State) {
    |Occupied(st)| + |st.admitted| <= ceiling + k - 1
  }

  /** The call is in front of the gate or past it, working on that number. */
  predicate Works(st: State, c: nat, no: string) {
    (c in st.waiting && st.waiting[c] == Join(no)) || (c in st.admitted && st.admitted[c] == Join(no))
  }

  /** A claimed number belongs to the one call that is working on it. */
  ghost predicate Claims(st: State) {
    && (forall no :: no in st.joining ==> Works(st, st.joining[no], no))
    && (forall c :: c in st.waiting ==> c < st.calls && c !in st.admitted)
    && (forall c :: c in st.admitted ==> c < st.calls)
    && (forall c :: c in st.waiting && st.waiting[c].Join? ==>
         st.waiting[c].meetingNo in st.joining && st.joining[st.waiting[c].meetingNo] == c)
    && (forall c :: c in st.admitted && st.admitted[c].Join? ==>
         st.admitted[c].meetingNo in st.joining && st.joining[st.admitted[c].meetingNo] == c)
  }

  predicate OneCallPerNumber(m: map<nat, Call>) {
    forall c, d :: c in m && d in m && c != d && m[c].Join? && m[d].Join? ==> m[c].meetingNo != m[d].meetingNo
  }

  lemma AddOne(s: set<string>, x: string)
    ensures |s + {x}| <= |s| + 1
    ensures x !in s ==> |s + {x}| == |s| + 1
  {
    if x in s {
      assert s + {x} == s;
    }
  }

  lemma MapMinus(m: map<nat, Call>, c: nat)
    requires c in m
    ensures |m - {c}| == |m| - 1
  {
    assert m.Keys == (m - {c}).Keys + {c};
  }

  lemma RegisterBounded(bound: int, occupied: set<string>, admitted: map<nat, Call>, c: nat, meeting: string)
    requires |occupied| + |admitted| <= bound && c in admitted
    ensures |occupied + {meeting}| + |admitted - {c}| <= bound
  {
    MapMinus(admitted, c);
    AddOne(occupied, meeting);
  }

  lemma RegisterNext(ceiling: int, st: State, step: Step)
    requires Enabled(ceiling, st, step) && (step.RegisterJoin? || step.RegisterFollow?)
    ensures Occupied(Next(ceiling, st, step)) == Occupied(st) + {step.meeting}
    ensures Next(ceiling, st, step).admitted == st.admitted - {step.call} && step.call in st.admitted
  {
  }

  lemma LeavingNext(ceiling: int, st: State, step: Step)
    requires Enabled(ceiling, st, step) && (step.Dispose? || step.ReleaseSeat?)
    ensures Occupied(Next(ceiling, st, step)) <= Occupied(st) && Next(ceiling, st, step).admitted == st.admitted
  {
  }

  lemma OtherNext(ceiling: int, st: State, step: Step)
    requires Enabled(ceiling, st, step)
    requires step.StartJoin? || step.StartFollow? || step.Admit? || step.Refuse? || step.Cancel? || step.Fail?
    ensures Occupied(Next(ceiling, st, step)) == Occupied(st)
    ensures step.Admit? ==> |Occupied(st)| < ceiling
    ensures step.Fail? ==> Next(ceiling, st, step).admitted == st.admitted - {step.call} && step.call in st.admitted
    ensures !step.Admit? && !step.Fail? ==> Next(ceiling, st, step).admitted == st.admitted
  {
  }

  lemma NextBounded(ceiling: int, k: nat, st: State, step: Step)
    requires Enabled(ceiling, st, step) && Bounded(ceiling, k, st)
    requires |Next(ceiling, st, step).admitted| <= k
    ensures Bounded(ceiling, k, Next(ceiling, st, step))
  {
    hide Next, Enabled, Occupied;
    if step.RegisterJoin? || step.RegisterFollow? {
      RegisterNext(ceiling, st, step);
      RegisterBounded(ceiling + k - 1, Occupied(st), st.admitted, step.call, step.meeting);
    } else if step.Dispose? || step.ReleaseSeat? {
      LeavingNext(ceiling, st, step);
      SubsetCard(Occupied(Next(ceiling, st, step)), Occupied(st));
    } else {
      OtherNext(ceiling, st, step);
      if step.Fail? {
        MapMinus(st.admitted, step.call);
      }
    }
  }

  lemma NextClaims(ceiling: int, st: State, step: Step)
    requires Enabled(ceiling, st, step) && Claims(st)
    ensures Claims(Next(ceiling, st, step))
  {
  }

  lemma {:induction false} RunKeeps(ceiling: int, k: nat, states: seq<State>, steps: seq<Step>, n: nat)
    requires Run(ceiling, k, states, steps) && n < |states| && k > 0 && ceiling >= 0
    ensures Bounded(ceiling, k, states[n]) && Claims(states[n])
  {
    hide Bounded, Claims, Next, Enabled;
    if n == 0 {
      EmptyKeeps(ceiling, k);
    } else {
      RunKeeps(ceiling, k, states, steps, n - 1);
      assert states[n] == Next(ceiling, states[n - 1], steps[n - 1]);
      NextBounded(ceiling, k, states[n - 1], steps[n - 1]);
      NextClaims(ceiling, states[n - 1], steps[n - 1]);
    }
  }

  lemma EmptyKeeps(ceiling: int, k: nat)
    requires k > 0 && ceiling >= 0
    ensures Bounded(ceiling, k, EMPTY) && Claims(EMPTY)
  {
  }

  /** In every run with at most `k` calls past the gate at once, the occupied meetings and the calls
      still on their way never exceed `ceiling + k - 1`; with one call at a time that is the ceiling.
      And no two calls work on the same meeting number. */
  lemma CeilingHolds(ceiling: int, k: nat, states: seq<State>, steps: seq<Step>, n: nat)
    requires Run(ceiling, k, states, steps) && n < |states| && k > 0 && ceiling >= 0
    ensures |states[n].live + states[n].held| + |states[n].admitted| <= ceiling + k - 1
    ensures k == 1 ==> |states[n].live + states[n].held| + |states[n].admitted| <= ceiling
    ensures OneCallPerNumber(states[n].admitted)
  {
    RunKeeps(ceiling, k, states, steps, n);
  }

  /** A join that registers takes the seat and has its session in one step, and gives its number back; a follow
      takes no seat. */
  lemma RegisteringTakesBoth(ceiling: int, st: State, step: Step)
    requires Enabled(ceiling, st, step) && Claims(st) && (step.RegisterJoin? || step.RegisterFollow?)
    ensures var st' := Next(ceiling, st, step);
      && step.meeting in st'.live && st'.live == st.live + {step.meeting} && step.call !in st'.admitted
      && st'.held == (if step.RegisterJoin? then st.held + {step.meeting} else st.held)
      && (step.RegisterJoin? ==> st.admitted[step.call].Join? && st.admitted[step.call].meetingNo !in st'.joining)
      && (step.RegisterFollow? ==> st.admitted[step.call].Follow? && st'.joining == st.joining)
  {
  }

  /** A meeting whose seat is held counts with or without a session: disposing its session lets nobody in. */
  lemma DisposingFreesNothing(ceiling: int, st: State, meeting: string, call: nat)
    requires meeting in st.held && call in st.waiting
    ensures Enabled(ceiling, st, Dispose(meeting))
    ensures var st' := Next(ceiling, st, Dispose(meeting));
      && meeting !in st'.live && (Enabled(ceiling, st', Admit(call)) <==> Enabled(ceiling, st, Admit(call)))
      && (Enabled(ceiling, st', Refuse(call)) <==> Enabled(ceiling, st, Refuse(call)))
  {
    assert Occupied(Next(ceiling, st, Dispose(meeting))) == Occupied(st);
  }

  // ---- the bound is reached ------------------------------------------------------------------------

  function Name(i: nat): string {
    seq(i, _ => 'm')
  }

  function Names(n: nat): set<string> {
    if n == 0 then {} else Names(n - 1) + {Name(n - 1)}
  }

  lemma {:induction false} NamesCard(n: nat)
    ensures |Names(n)| == n
    ensures forall s :: s in Names(n) ==> |s| < n
  {
    if n > 0 {
      NamesCard(n - 1);
    }
  }

  ghost predicate Extends(ceiling: int, k: nat, states: seq<State>, steps: seq<Step>, st: State) {
    Run(ceiling, k, states, steps) && states[|steps|] == st
  }

  lemma Extend(ceiling: int, k: nat, states: seq<State>, steps: seq<Step>, st: State, step: Step) returns (states': seq<State>, steps': seq<Step>)
    requires Extends(ceiling, k, states, steps, st) && Enabled(ceiling, st, step) && |Next(ceiling, st, step).admitted| <= k
    ensures Extends(ceiling, k, states', steps', Next(ceiling, st, step))
  {
    hide Enabled, Next;
    states', steps' := states + [Next(ceiling, st, step)], steps + [step];
    forall i | 0 <= i < |steps'|
      ensures Enabled(ceiling, states'[i], steps'[i]) && states'[i + 1] == Next(ceiling, states'[i], steps'[i])
    {
      if i < |steps| {
        assert states'[i] == states[i] && states'[i + 1] == states[i + 1] && steps'[i] == steps[i];
      }
    }
    forall i | 0 <= i < |states'|
      ensures |states'[i].admitted| <= k
    {
      assert i < |states| ==> states'[i] == states[i];
    }
  }

  /** `count` follow calls past the gate, numbered from `first` on. */
  function Follows(first: nat, count: nat): (m: map<nat, Call>)
    ensures forall c :: c in m <==> first <= c < first + count
    ensures forall c :: c in m ==> m[c] == Follow
    ensures |m| == count
  {
    if count == 0 then map[]
    else
      var m := Follows(first, count - 1);
      assert first + count - 1 !in m;
      m[first + count - 1 := Follow]
  }

  /** Between two calls: some meetings live without a seat, some follow calls past the gate. */
  function Between(live: set<string>, admitted: map<nat, Call>, calls: nat): State {
    State(live, {}, map[], map[], admitted, calls)
  }

  lemma StartsAndPasses(ceiling: int, live: set<string>, admitted: map<nat, Call>, calls: nat)
    requires |live| < ceiling && calls !in admitted
    ensures Enabled(ceiling, Between(live, admitted, calls), StartFollow)
    ensures var st := Next(ceiling, Between(live, admitted, calls), StartFollow);
      && st.admitted == admitted && Enabled(ceiling, st, Admit(calls))
      && Next(ceiling, st, Admit(calls)) == Between(live, admitted[calls := Follow], calls + 1)
  {
    assert live + {} == live;
  }

  lemma Registers(ceiling: int, live: set<string>, admitted: map<nat, Call>, calls: nat, c: nat, meeting: string)
    requires c in admitted && admitted[c] == Follow
    ensures Enabled(ceiling, Between(live, admitted, calls), RegisterFollow(c, meeting))
    ensures Next(ceiling, Between(live, admitted, calls), RegisterFollow(c, meeting))
      == Between(live + {meeting}, admitted - {c}, calls)
  {
  }

  /** One more follow call passes the gate. */
  lemma Pass(ceiling: int, k: nat, states: seq<State>, steps: seq<Step>, live: set<string>, admitted: map<nat, Call>, calls: nat) returns (states': seq<State>, steps': seq<Step>)
    requires Extends(ceiling, k, states, steps, Between(live, admitted, calls))
    requires |live| < ceiling && calls !in admitted && |admitted| < k
    ensures Extends(ceiling, k, states', steps', Between(live, admitted[calls := Follow], calls + 1))
  {
    hide Enabled, Next, Extends, Between;
    StartsAndPasses(ceiling, live, admitted, calls);
    var st := Between(live, admitted, calls);
    states', steps' := Extend(ceiling, k, states, steps, st, StartFollow);
    assert Next(ceiling, Next(ceiling, st, StartFollow), Admit(calls)).admitted == admitted[calls := Follow] by {
      BetweenParts(live, admitted[calls := Follow], calls + 1);
    }
    states', steps' := Extend(ceiling, k, states', steps', Next(ceiling, st, StartFollow), Admit(calls));
  }

  lemma BetweenParts(live: set<string>, admitted: map<nat, Call>, calls: nat)
    ensures Between(live, admitted, calls).admitted == admitted
  {
  }

  /** The follow call `c` registers a session for `meeting`. */
  lemma Register(ceiling: int, k: nat, states: seq<State>, steps: seq<Step>, live: set<string>, admitted: map<nat, Call>, calls: nat, c: nat, meeting: string) returns (states': seq<State>, steps': seq<Step>)
    requires Extends(ceiling, k, states, steps, Between(live, admitted, calls))
    requires c in admitted && admitted[c] == Follow && |admitted| <= k
    ensures Extends(ceiling, k, states', steps', Between(live + {meeting}, admitted - {c}, calls))
  {
    hide Enabled, Next, Extends, Between;
    Registers(ceiling, live, admitted, calls, c, meeting);
    BetweenParts(live + {meeting}, admitted - {c}, calls);
    MapMinus(admitted, c);
    states', steps' := Extend(ceiling, k, states, steps, Between(live, admitted, calls), RegisterFollow(c, meeting));
  }

  /** One follow after the other: `n` meetings are live. */
  lemma {:induction false} Fill(ceiling: int, k: nat, n: nat) returns (states: seq<State>, steps: seq<Step>)
    requires n < ceiling && k > 0
    ensures Extends(ceiling, k, states, steps, Between(Names(n), map[], n))
  {
    hide Extends, Between;
    if n == 0 {
      states, steps := [EMPTY], [];
      EmptyExtends(ceiling, k);
    } else {
      states, steps := Fill(ceiling, k, n - 1);
      NamesCard(n - 1);
      states, steps := Pass(ceiling, k, states, steps, Names(n - 1), map[], n - 1);
      states, steps := Register(ceiling, k, states, steps, Names(n - 1), map[n - 1 := Follow], n, n - 1, Name(n - 1));
      assert map[n - 1 := Follow] - {n - 1} == map[];
    }
  }

  lemma EmptyExtends(ceiling: int, k: nat)
    ensures Extends(ceiling, k, [EMPTY], [], Between({}, map[], 0))
  {
  }

  /** Then `j` calls pass the gate before any of them registers. */
  lemma {:induction false} Crowd(ceiling: int, k: nat, j: nat) returns (states: seq<State>, steps: seq<Step>)
    requires ceiling > 0 && j <= k && k > 0
    ensures Extends(ceiling, k, states, steps, Between(Names(ceiling - 1), Follows(ceiling - 1, j), ceiling - 1 + j))
  {
    hide Extends, Between, Names;
    if j == 0 {
      states, steps := Fill(ceiling, k, ceiling - 1);
    } else {
      states, steps := Crowd(ceiling, k, j - 1);
      NamesCard(ceiling - 1);
      var m := Follows(ceiling - 1, j - 1);
      states, steps := Pass(ceiling, k, states, steps, Names(ceiling - 1), m, ceiling - 1 + j - 1);
      assert m[ceiling - 1 + j - 1 := Follow] == Follows(ceiling - 1, j);
    }
  }

  lemma FollowsLess(first: nat, count: nat)
    ensures first in Follows(first, count + 1) && Follows(first, count + 1) - {first} == Follows(first + 1, count)
  {
    hide Follows;
    var m := Follows(first, count + 1);
    assert first in m;
    forall c ensures c in m - {first} <==> c in Follows(first + 1, count) {
    }
  }

  /** And then `j` of them register. */
  lemma {:induction false} Overfill(ceiling: int, k: nat, j: nat) returns (states: seq<State>, steps: seq<Step>)
    requires ceiling > 0 && j <= k && k > 0
    ensures Extends(ceiling, k, states, steps,
      Between(Names(ceiling - 1 + j), Follows(ceiling - 1 + j, k - j), ceiling - 1 + k))
  {
    hide Extends, Between, Follows, Name;
    if j == 0 {
      states, steps := Crowd(ceiling, k, k);
    } else {
      states, steps := Overfill(ceiling, k, j - 1);
      var c: nat := ceiling - 1 + j - 1;
      var m := Follows(c, k - j + 1);
      states, steps := Register(ceiling, k, states, steps, Names(c), m, ceiling - 1 + k, c, Name(c));
      FollowsLess(c, k - j);
      assert Names(c + 1) == Names(c) + {Name(c)};
    }
  }

  /** The bound is exact: for every ceiling and every `k` some run occupies `ceiling + k - 1` meetings. */
  lemma CeilingIsExceeded(ceiling: int, k: nat) returns (states: seq<State>, steps: seq<Step>)
    requires ceiling > 0 && k > 0
    ensures Run(ceiling, k, states, steps) && |states[|steps|].live + states[|steps|].held| == ceiling + k - 1
  {
    hide Names, Follows, Enabled, Next;
    states, steps := Overfill(ceiling, k, k);
    NamesCard(ceiling - 1 + k);
    var live := Names(ceiling - 1 + k);
    assert Occupied(states[|steps|]) == live + {} == live;
  }

  // ---- seats alone fill it too ---------------------------------------------------------------------

  /** No session, some seats, nothing under way. */
  function Seated(held: set<string>, calls: nat): State {
    State({}, held, map[], map[], map[], calls)
  }

  lemma JoinSteps(ceiling: int, held: set<string>, calls: nat, meeting: string)
    requires |held| < ceiling
    ensures var s0 := Seated(held, calls);
      && Enabled(ceiling, s0, StartJoin(meeting))
      && var s1 := Next(ceiling, s0, StartJoin(meeting));
         && s1.admitted == map[] && Enabled(ceiling, s1, Admit(calls))
         && var s2 := Next(ceiling, s1, Admit(calls));
            && s2.admitted == map[calls := Join(meeting)] && Enabled(ceiling, s2, RegisterJoin(calls, meeting))
            && var s3 := Next(ceiling, s2, RegisterJoin(calls, meeting));
               && s3.admitted == map[] && Enabled(ceiling, s3, Dispose(meeting))
               && Next(ceiling, s3, Dispose(meeting)) == Seated(held + {meeting}, calls + 1)
  {
    assert {} + held == held;
  }

  /** A join takes a seat, and its session is disposed. */
  lemma SeatOne(ceiling: int, k: nat, states: seq<State>, steps: seq<Step>, held: set<string>, calls: nat, m: string)
    returns (states': seq<State>, steps': seq<Step>)
    requires Extends(ceiling, k, states, steps, Seated(held, calls)) && |held| < ceiling && k > 0
    ensures Extends(ceiling, k, states', steps', Seated(held + {m}, calls + 1))
  {
    hide Extends, Enabled, Next, Seated;
    JoinSteps(ceiling, held, calls, m);
    var s0 := Seated(held, calls);
    var s1 := Next(ceiling, s0, StartJoin(m));
    var s2 := Next(ceiling, s1, Admit(calls));
    var s3 := Next(ceiling, s2, RegisterJoin(calls, m));
    assert Seated(held + {m}, calls + 1).admitted == map[] by { NobodyUnderWay(held + {m}, calls + 1); }
    states', steps' := Extend(ceiling, k, states, steps, s0, StartJoin(m));
    states', steps' := Extend(ceiling, k, states', steps', s1, Admit(calls));
    states', steps' := Extend(ceiling, k, states', steps', s2, RegisterJoin(calls, m));
    states', steps' := Extend(ceiling, k, states', steps', s3, Dispose(m));
  }

  lemma NobodyUnderWay(held: set<string>, calls: nat)
    ensures Seated(held, calls).admitted == map[]
  {
  }

  lemma {:induction false} FillSeats(ceiling: int, k: nat, n: nat) returns (states: seq<State>, steps: seq<Step>)
    requires n <= ceiling && k > 0
    ensures Extends(ceiling, k, states, steps, Seated(Names(n), n))
  {
    hide Extends, Name;
    if n == 0 {
      states, steps := [EMPTY], [];
      EmptyExtends(ceiling, k);
    } else {
      states, steps := FillSeats(ceiling, k, n - 1);
      NamesCard(n - 1);
      states, steps := SeatOne(ceiling, k, states, steps, Names(n - 1), n - 1, Name(n - 1));
    }
  }

  /** For every ceiling there is a run after which no session is left and held seats alone keep the next
      call out. */
  lemma SeatsAloneRefuse(ceiling: nat, k: nat) returns (states: seq<State>, steps: seq<Step>, call: nat)
    requires k > 0
    ensures Run(ceiling, k, states, steps) && states[|steps|].live == {} && |states[|steps|].held| == ceiling
    ensures call in states[|steps|].waiting
    ensures Enabled(ceiling, states[|steps|], Refuse(call)) && !Enabled(ceiling, states[|steps|], Admit(call))
  {
    hide Run, Names;
    states, steps := FillSeats(ceiling, k, ceiling);
    NamesCard(ceiling);
    var st := Seated(Names(ceiling), ceiling);
    states, steps := Extend(ceiling, k, states, steps, st, StartFollow);
    call := ceiling;
    assert {} + Names(ceiling) == Names(ceiling);
  }

  // ---- the gate object -----------------------------------------------------------------------------

  datatype Verdict = Admitted | TooManySessions

  class AdmissionGate {
    const ceiling: int
    /** In-flight joins: the future of each number, by its owner. */
    var joining: map<string, nat>

    constructor (ceiling: int)
      ensures joining == map[] && this.ceiling == ceiling
    {
      this.ceiling, joining := ceiling, map[];
    }

    /** The comparison after reconciliation, with the sets read at that moment: the answer is the step
        that is enabled for a waiting call, to pass or to be refused. */
    method Admit(live: set<string>, held: set<string>, ghost st: State, ghost call: nat) returns (v: Verdict)
      requires live == st.live && held == st.held && call in st.waiting
      ensures v == TooManySessions <==> |live + held| >= ceiling
      ensures v == Admitted <==> Enabled(ceiling, st, Step.Admit(call))
      ensures v == TooManySessions <==> Enabled(ceiling, st, Refuse(call))
    {
      if |live + held| >= ceiling {
        return TooManySessions;
      }
      return Admitted;
    }

    /** A join asks for its number: it shares the future of the call that is still working on it, or
        becomes that call. */
    method Enter(no: string, future: nat, ghost st: State) returns (shared: Option<nat>)
      requires joining == st.joining && Claims(st) && future == st.calls
      modifies this
      ensures shared.Some? <==> exists c :: Works(st, c, no)
      ensures shared.Some? ==> Works(st, shared.value, no) && joining == st.joining
      ensures shared.None? ==>
        Enabled(ceiling, st, StartJoin(no)) && joining == Next(ceiling, st, StartJoin(no)).joining
    {
      if no in joining {
        assert Works(st, joining[no], no);
        return Some(joining[no]);
      }
      joining := joining[no := future];
      return None;
    }

    /** The end of a join, however it ended: its number is free, and nobody works on it any more. */
    method Release(no: string, ghost st: State, ghost call: nat, ghost last: Step)
      requires joining == st.joining && Claims(st) && Works(st, call, no) && Enabled(ceiling, st, last)
      requires last == Refuse(call) || last == Cancel(call) || last == Fail(call) || (last.RegisterJoin? && last.call == call)
      modifies this
      ensures joining == Next(ceiling, st, last).joining && no !in joining
      ensures forall c :: !Works(Next(ceiling, st, last), c, no)
    {
      joining := joining - {no};
    }
  }
}
