/** The retry throttle of seat reconciliation, when passes may overlap.

    A pass lists the due entries and then attempts them one by one; other steps run in between. An entry
    is one stay in a meeting: joining again after a release makes a new one. */
module Reconciliation {
  import opened Wrappers
  import M = Membership

  datatype Entry = Entry(meeting: string, seat: M.Seat)

  /** A pass: what is left to attempt, how many attempts had been made when it listed them, and when. */
  datatype Pass = Pass(todo: seq<nat>, listedAfter: nat, listedAt: real, open: bool)

  datatype Try = Try(entry: nat, pass: nat, at: real)

  datatype State = State(clock: real, entries: seq<Entry>, held: map<string, nat>, passes: seq<Pass>, tries: seq<Try>)

  const EMPTY := State(0.0, [], map[], [], [])

  datatype Step =
    | Tick(clock: real)
    | Join(meeting: string)
    | Touch(meeting: string)
    | Release(meeting: string)
    | Mark(meeting: string)             // a departure came back inconclusive
    | Open(todo: seq<nat>)              // a pass lists the due entries
    | Attempt(pass: nat)
    | Close(pass: nat)

  function Stamp(e: Entry, now: real): Entry {
    e.(seat := e.seat.(lastAttemptAt := Some(now)))
  }

  /** The list of a pass: the due entries among the held ones, each once. */
  ghost predicate Lists(st: State, interval: real, todo: seq<nat>) {
    && (forall i, j :: 0 <= i < j < |todo| ==> todo[i] != todo[j])
    && forall e: nat :: e in todo <==>
         e < |st.entries| && Holds(st, e) && M.Due(st.entries[e].seat, interval, st.clock)
  }

  predicate Holds(st: State, e: nat)
    requires e < |st.entries|
  {
    st.entries[e].meeting in st.held && st.held[st.entries[e].meeting] == e
  }

  /** Without an interval nothing is reconciled. */
  ghost predicate Next(interval: real, st: State, step: Step, st': State) {
    match step
    case Tick(clock) => st.clock <= clock && st' == st.(clock := clock)
    case Join(meeting) =>
      meeting != "" && st' ==
        if meeting in st.held && st.held[meeting] < |st.entries| then
          st.(entries := st.entries[st.held[meeting] := st.entries[st.held[meeting]].(
            seat := st.entries[st.held[meeting]].seat.(unresolved := false, confirmedAt := st.clock))])
        else
          st.(entries := st.entries + [Entry(meeting, M.Seat(st.clock, None, false))], held := st.held[meeting := |st.entries|])
    case Touch(meeting) =>
      && meeting in st.held && st.held[meeting] < |st.entries|
      && st' == st.(entries := st.entries[st.held[meeting] := st.entries[st.held[meeting]].(
           seat := st.entries[st.held[meeting]].seat.(confirmedAt := st.clock))])
    case Release(meeting) => st' == st.(held := st.held - {meeting})
    case Mark(meeting) =>
      && meeting in st.held && st.held[meeting] < |st.entries|
      && st' == st.(entries := st.entries[st.held[meeting] := st.entries[st.held[meeting]].(
           seat := st.entries[st.held[meeting]].seat.(unresolved := true))])
    case Open(todo) =>
      && interval > 0.0 && Lists(st, interval, todo)
      && st' == st.(passes := st.passes + [Pass(todo, |st.tries|, st.clock, true)])
    case Attempt(p) =>
      && p < |st.passes| && st.passes[p].open && st.passes[p].todo != []
      && var e := st.passes[p].todo[0];
         && e < |st.entries|
         && st' == st.(passes := st.passes[p := st.passes[p].(todo := st.passes[p].todo[1..])],
                       entries := st.entries[e := Stamp(st.entries[e], st.clock)],
                       tries := st.tries + [Try(e, p, st.clock)])
    case Close(p) =>
      && p < |st.passes| && st.passes[p].todo == []
      && st' == st.(passes := st.passes[p := st.passes[p].(open := false)])
  }

  ghost predicate Run(interval: real, states: seq<State>, steps: seq<Step>) {
    && |states| == |steps| + 1 && states[0] == EMPTY
    && forall i :: 0 <= i < |steps| ==> Next(interval, states[i], steps[i], states[i + 1])
  }

  // ---- what every step keeps -----------------------------------------------------------------------

  /** Every attempt of an entry is on its stamp. */
  ghost predicate StampsKept(st: State) {
    forall i :: 0 <= i < |st.tries| ==>
      && st.tries[i].entry < |st.entries| && st.tries[i].at <= st.clock
      && st.entries[st.tries[i].entry].seat.lastAttemptAt.Some?
      && st.tries[i].at <= st.entries[st.tries[i].entry].seat.lastAttemptAt.value <= st.clock
  }

  /** What a pass still has to attempt had rested for an interval when it was listed. */
  ghost predicate Rested(interval: real, st: State) {
    && (forall p :: 0 <= p < |st.passes| ==> st.passes[p].listedAfter <= |st.tries| && st.passes[p].listedAt <= st.clock)
    && (forall p, i :: 0 <= p < |st.passes| && 0 <= i < st.passes[p].listedAfter && st.tries[i].entry in st.passes[p].todo ==>
         st.passes[p].listedAt - st.tries[i].at >= interval)
    && forall p :: 0 <= p < |st.passes| ==> forall e :: e in st.passes[p].todo ==> e < |st.entries|
  }

  /** A pass attempts an entry once. */
  ghost predicate Once(st: State) {
    && (forall p :: 0 <= p < |st.passes| ==> Distinct(st.passes[p].todo))
    && (forall i :: 0 <= i < |st.tries| ==> DoneOnce(st, i))
    && forall i, j :: 0 <= i < j < |st.tries| && st.tries[i].pass == st.tries[j].pass ==> st.tries[i].entry != st.tries[j].entry
  }

  ghost predicate DoneOnce(st: State, i: int)
    requires 0 <= i < |st.tries|
  {
    var t := st.tries[i];
    t.pass < |st.passes| && st.passes[t.pass].listedAfter <= i && t.entry !in st.passes[t.pass].todo
  }

  ghost predicate Distinct(es: seq<nat>) {
    forall i, j :: 0 <= i < j < |es| ==> es[i] != es[j]
  }

  /** Two attempts of one entry lie an interval apart, unless the later one was listed before the
      earlier one was made. */
  ghost predicate Apart(interval: real, st: State) {
    forall i, j :: 0 <= i < j < |st.tries| && ListedLater(st, i, j) ==> st.tries[j].at - st.tries[i].at >= interval
  }

  /** Attempt `j` is of the same entry as attempt `i` and was listed after it. */
  ghost predicate ListedLater(st: State, i: int, j: int)
    requires 0 <= i < j < |st.tries|
  {
    st.tries[i].entry == st.tries[j].entry && st.tries[j].pass < |st.passes| && st.passes[st.tries[j].pass].listedAfter > i
  }

  ghost predicate Inv(interval: real, st: State) {
    StampsKept(st) && Rested(interval, st) && Once(st) && Apart(interval, st)
  }

  lemma OpenRested(interval: real, st: State, todo: seq<nat>, st': State)
    requires StampsKept(st) && Rested(interval, st) && Next(interval, st, Open(todo), st')
    ensures Rested(interval, st')
  {
    forall p, i | 0 <= p < |st'.passes| && 0 <= i < st'.passes[p].listedAfter && st'.tries[i].entry in st'.passes[p].todo
      ensures st'.passes[p].listedAt - st'.tries[i].at >= interval
    {
      if p == |st.passes| {
        assert M.Due(st.entries[st.tries[i].entry].seat, interval, st.clock);
      }
    }
  }

  /** The passes that were there keep their lists and the attempts are the same. */
  ghost predicate SamePasses(st: State, st': State) {
    && st'.tries == st.tries && |st.passes| <= |st'.passes|
    && forall p :: 0 <= p < |st.passes| ==>
         st'.passes[p].todo == st.passes[p].todo && st'.passes[p].listedAfter == st.passes[p].listedAfter
         && st'.passes[p].listedAt == st.passes[p].listedAt
  }

  lemma SameOnce(interval: real, st: State, st': State)
    requires Once(st) && Apart(interval, st) && SamePasses(st, st')
    requires forall p :: |st.passes| <= p < |st'.passes| ==> Distinct(st'.passes[p].todo)
    ensures Once(st') && Apart(interval, st')
  {
    hide Distinct;
    forall i | 0 <= i < |st'.tries|
      ensures DoneOnce(st', i)
    {
      assert DoneOnce(st, i);
    }
    forall i, j | 0 <= i < j < |st'.tries| && ListedLater(st', i, j)
      ensures st'.tries[j].at - st'.tries[i].at >= interval
    {
      assert DoneOnce(st, j);
      assert ListedLater(st, i, j);
    }
  }

  lemma OpenKeeps(interval: real, st: State, todo: seq<nat>, st': State)
    requires Inv(interval, st) && Next(interval, st, Open(todo), st')
    ensures Inv(interval, st')
  {
    OpenRested(interval, st, todo, st');
    hide Rested, Once, Apart;
    SameOnce(interval, st, st');
  }

  lemma AttemptKeeps(interval: real, st: State, p: nat, st': State)
    requires Inv(interval, st) && Next(interval, st, Attempt(p), st')
    ensures Inv(interval, st')
  {
    AttemptStamps(interval, st, p, st');
    AttemptRested(interval, st, p, st');
    AttemptOnce(interval, st, p, st');
    AttemptApart(interval, st, p, st');
  }

  lemma AttemptStamps(interval: real, st: State, p: nat, st': State)
    requires StampsKept(st) && Next(interval, st, Attempt(p), st')
    ensures StampsKept(st')
  {
  }

  lemma AttemptRested(interval: real, st: State, p: nat, st': State)
    requires Rested(interval, st) && Next(interval, st, Attempt(p), st')
    ensures Rested(interval, st')
  {
    assert forall q :: 0 <= q < |st.passes| ==> forall e :: e in st'.passes[q].todo ==> e in st.passes[q].todo;
  }

  lemma AttemptOnce(interval: real, st: State, p: nat, st': State)
    requires Rested(interval, st) && Once(st) && Next(interval, st, Attempt(p), st')
    ensures Once(st')
  {
    var todo := st.passes[p].todo;
    assert todo == [todo[0]] + todo[1..];
    assert forall q :: 0 <= q < |st.passes| ==> forall e :: e in st'.passes[q].todo ==> e in st.passes[q].todo;
    forall i | 0 <= i < |st'.tries|
      ensures DoneOnce(st', i)
    {
      assert i < |st.tries| ==> DoneOnce(st, i);
    }
    forall i, j | 0 <= i < j < |st'.tries| && st'.tries[i].pass == st'.tries[j].pass
      ensures st'.tries[i].entry != st'.tries[j].entry
    {
      assert DoneOnce(st, i);
    }
  }

  lemma AttemptApart(interval: real, st: State, p: nat, st': State)
    requires Inv(interval, st) && Next(interval, st, Attempt(p), st')
    ensures Apart(interval, st')
  {
    var e := st.passes[p].todo[0];
    assert e in st.passes[p].todo;
    forall i, j | 0 <= i < j < |st'.tries| && ListedLater(st', i, j)
      ensures st'.tries[j].at - st'.tries[i].at >= interval
    {
      if j < |st.tries| {
        assert ListedLater(st, i, j);
      } else {
        assert st.passes[p].listedAt - st.tries[i].at >= interval;
      }
    }
  }

  lemma OtherRested(interval: real, st: State, step: Step, st': State)
    requires StampsKept(st) && Rested(interval, st) && Next(interval, st, step, st') && !step.Open? && !step.Attempt?
    ensures StampsKept(st') && Rested(interval, st') && SamePasses(st, st') && |st'.passes| == |st.passes|
  {
  }

  lemma OtherKeeps(interval: real, st: State, step: Step, st': State)
    requires Inv(interval, st) && Next(interval, st, step, st') && !step.Open? && !step.Attempt?
    ensures Inv(interval, st')
  {
    hide Next, Rested, StampsKept;
    OtherRested(interval, st, step, st');
    SameOnce(interval, st, st');
  }

  lemma NextKeeps(interval: real, st: State, step: Step, st': State)
    requires Inv(interval, st) && Next(interval, st, step, st')
    ensures Inv(interval, st')
  {
    hide Inv, Next;
    match step {
      case Open(todo) => OpenKeeps(interval, st, todo, st');
      case Attempt(p) => AttemptKeeps(interval, st, p, st');
      case _ => OtherKeeps(interval, st, step, st');
    }
  }

  lemma EmptyInv(interval: real)
    ensures Inv(interval, EMPTY)
  {
  }

  lemma {:induction false} RunKeeps(interval: real, states: seq<State>, steps: seq<Step>, n: nat)
    requires Run(interval, states, steps) && n < |states|
    ensures Inv(interval, states[n])
  {
    hide Inv, Next;
    if n == 0 {
      EmptyInv(interval);
    } else {
      RunKeeps(interval, states, steps, n - 1);
      assert Next(interval, states[n - 1], steps[n - 1], states[n - 1 + 1]);
      NextKeeps(interval, states[n - 1], steps[n - 1], states[n]);
    }
  }

  /** In every run, overlapping passes or not: an entry is attempted twice within the interval only if
      the later attempt was listed before the earlier one was made, by another pass. */
  lemma TooSoonOnlyIfListedBefore(interval: real, states: seq<State>, steps: seq<Step>, n: nat, i: nat, j: nat)
    requires Run(interval, states, steps) && n < |states| && i < j < |states[n].tries|
    requires states[n].tries[i].entry == states[n].tries[j].entry
    requires states[n].tries[j].at - states[n].tries[i].at < interval
    ensures var st := states[n];
      && st.tries[j].pass < |st.passes| && st.passes[st.tries[j].pass].listedAfter <= i
      && st.tries[i].pass != st.tries[j].pass
  {
    RunKeeps(interval, states, steps, n);
    assert DoneOnce(states[n], j);
    assert !ListedLater(states[n], i, j);
  }

  // ---- the books behind the entries ----------------------------------------------------------------

  /** The seats that are held, as the ledger books them. */
  function Seats(st: State): map<string, M.Seat> {
    map m | m in st.held && st.held[m] < |st.entries| :: st.entries[st.held[m]].seat
  }

  /** A held meeting has an entry of its own. */
  ghost predicate Linked(st: State) {
    && (forall m :: m in st.held ==> m != "" && st.held[m] < |st.entries| && st.entries[st.held[m]].meeting == m)
    && forall p :: 0 <= p < |st.passes| ==> forall e :: e in st.passes[p].todo ==> e < |st.entries|
  }

  const UNCLEAR := M.Answer(false, None, None)

  /** What a step means to the books. An attempt of an entry that is not held any more means nothing. */
  function Booked(st: State, step: Step): Option<M.Op> {
    match step
    case Join(meeting) => Some(M.Add(meeting, st.clock))
    case Touch(meeting) => Some(M.Op.Touch(meeting, st.clock))
    case Release(meeting) => Some(M.Op.Release(meeting, "ok"))
    case Mark(meeting) => Some(M.Note(meeting, Some(UNCLEAR)))
    case Attempt(p) =>
      if p < |st.passes| && st.passes[p].todo != [] && st.passes[p].todo[0] < |st.entries| && Holds(st, st.passes[p].todo[0])
      then Some(M.Op.Attempt(st.entries[st.passes[p].todo[0]].meeting, st.clock)) else None
    case _ => None
  }

  /** The seats after a step are those of the books. */
  ghost predicate Agrees(st: State, step: Step, st': State, b: M.Books) {
    && Linked(st')
    && Seats(st') == match Booked(st, step)
         case None => b.seats
         case Some(op) => M.Apply(b, op).seats
  }

  lemma JoinAgrees(interval: real, st: State, meeting: string, st': State, b: M.Books)
    requires Linked(st) && Next(interval, st, Join(meeting), st') && b.seats == Seats(st)
    ensures Agrees(st, Join(meeting), st', b)
  {
    if meeting in st.held {
      RejoinLinks(interval, st, meeting, st');
    } else {
      NewLinks(interval, st, meeting, st');
    }
    hide Next, Linked, Seats;
  }

  lemma NewLinks(interval: real, st: State, meeting: string, st': State)
    requires Linked(st) && Next(interval, st, Join(meeting), st') && meeting !in st.held
    ensures Linked(st') && meeting !in Seats(st) && meeting != ""
    ensures Seats(st') == Seats(st)[meeting := M.Seat(st.clock, None, false)]
  {
    hide M.Due;
  }

  lemma RejoinLinks(interval: real, st: State, meeting: string, st': State)
    requires Linked(st) && Next(interval, st, Join(meeting), st') && meeting in st.held
    ensures Linked(st') && meeting in Seats(st) && meeting != ""
    ensures Seats(st') == Seats(st)[meeting := Seats(st)[meeting].(unresolved := false, confirmedAt := st.clock)]
  {
    hide M.Due;
  }

  lemma EditAgrees(interval: real, st: State, step: Step, st': State, b: M.Books)
    requires Linked(st) && Next(interval, st, step, st') && b.seats == Seats(st) && (step.Touch? || step.Mark?)
    ensures Agrees(st, step, st', b)
  {
    hide M.Due;
  }

  lemma QuietAgrees(interval: real, st: State, step: Step, st': State, b: M.Books)
    requires Linked(st) && Next(interval, st, step, st') && b.seats == Seats(st)
    requires step.Tick? || step.Open? || step.Close? || step.Release?
    ensures Agrees(st, step, st', b)
  {
    hide M.Due, M.Bumped;
  }

  /** Every step does to the seats what the ledger's operation does to its books. */
  lemma StepsAgree(interval: real, st: State, step: Step, st': State, b: M.Books)
    requires Linked(st) && Next(interval, st, step, st') && b.seats == Seats(st)
    ensures Agrees(st, step, st', b)
  {
    hide Agrees, Next, Linked, Seats;
    match step {
      case Join(meeting) => JoinAgrees(interval, st, meeting, st', b);
      case Touch(_) => EditAgrees(interval, st, step, st', b);
      case Mark(_) => EditAgrees(interval, st, step, st', b);
      case Attempt(p) => AttemptAgrees(interval, st, p, st', b);
      case Tick(_) => QuietAgrees(interval, st, step, st', b);
      case Release(_) => QuietAgrees(interval, st, step, st', b);
      case Open(_) => QuietAgrees(interval, st, step, st', b);
      case Close(_) => QuietAgrees(interval, st, step, st', b);
    }
  }

  lemma AttemptAgrees(interval: real, st: State, p: nat, st': State, b: M.Books)
    requires Linked(st) && Next(interval, st, Attempt(p), st') && b.seats == Seats(st)
    ensures Agrees(st, Attempt(p), st', b)
  {
    var todo := st.passes[p].todo;
    assert todo == [todo[0]] + todo[1..];
    assert forall q :: 0 <= q < |st.passes| ==> forall e :: e in st'.passes[q].todo ==> e in st.passes[q].todo;
  }

  /** The ledger's operations of the first `n` steps, in order. */
  function Bookings(states: seq<State>, steps: seq<Step>, n: nat): seq<M.Op>
    requires n <= |steps| <= |states|
  {
    if n == 0 then []
    else
      var op := Booked(states[n - 1], steps[n - 1]);
      Bookings(states, steps, n - 1) + if op.Some? then [op.value] else []
  }

  /** Over every run, the held seats are those of the ledger after the operations of its steps. */
  lemma {:induction false} RunsAgree(interval: real, states: seq<State>, steps: seq<Step>, n: nat)
    requires Run(interval, states, steps) && n < |states|
    ensures Linked(states[n]) && Seats(states[n]) == M.ApplyAll(M.NO_BOOKS, Bookings(states, steps, n)).seats
  {
    hide Next, M.Apply, Booked;
    if n > 0 {
      RunsAgree(interval, states, steps, n - 1);
      var st, step, before, ops := states[n - 1], steps[n - 1], Bookings(states, steps, n - 1), Bookings(states, steps, n);
      assert Next(interval, states[n - 1], steps[n - 1], states[n - 1 + 1]);
      StepsAgree(interval, st, step, states[n], M.ApplyAll(M.NO_BOOKS, before));
      if Booked(st, step).Some? {
        assert ops == before + [Booked(st, step).value] && ops[..|ops| - 1] == before;
      } else {
        assert ops == before;
      }
    }
  }

  // ---- one pass at a time --------------------------------------------------------------------------

  function OpenPasses(st: State): set<nat> {
    set p: nat | p < |st.passes| && st.passes[p].open
  }

  /** At most `k` passes are ever under way at once. */
  ghost predicate AtMost(k: nat, states: seq<State>) {
    forall i :: 0 <= i < |states| ==> |OpenPasses(states[i])| <= k
  }

  ghost predicate Throttled(interval: real, st: State) {
    forall i, j :: 0 <= i < j < |st.tries| && st.tries[i].entry == st.tries[j].entry ==>
      st.tries[j].at - st.tries[i].at >= interval
  }

  /** Everything another pass attempted was attempted before an open pass was listed. */
  ghost predicate Alone(st: State) {
    && (forall p, i :: 0 <= p < |st.passes| && st.passes[p].open && 0 <= i < |st.tries| && st.tries[i].pass != p ==>
         i < st.passes[p].listedAfter)
    && (forall i, j :: 0 <= i < j < |st.tries| && st.tries[i].pass != st.tries[j].pass && st.tries[j].pass < |st.passes| ==>
         st.passes[st.tries[j].pass].listedAfter > i)
  }

  lemma OnlyOne(st: State, p: nat, q: nat)
    requires p < |st.passes| && q < |st.passes| && st.passes[p].open && st.passes[q].open
    requires |OpenPasses(st)| <= 1
    ensures p == q
  {
    if p != q {
      SubsetCard({p, q}, OpenPasses(st));
    }
  }

  lemma AloneKeeps(interval: real, st: State, step: Step, st': State)
    requires Alone(st) && Inv(interval, st) && Next(interval, st, step, st') && |OpenPasses(st)| <= 1
    ensures Alone(st')
  {
    if step.Attempt? {
      forall q | 0 <= q < |st.passes| && st.passes[q].open
        ensures q == step.pass
      {
        OnlyOne(st, q, step.pass);
      }
    } else if step.Open? {
      assert forall i :: 0 <= i < |st.tries| ==> DoneOnce(st, i);
    }
  }

  lemma {:induction false} RunAlone(interval: real, states: seq<State>, steps: seq<Step>, n: nat)
    requires Run(interval, states, steps) && AtMost(1, states) && n < |states|
    ensures Alone(states[n])
  {
    hide Next;
    if n > 0 {
      RunAlone(interval, states, steps, n - 1);
      RunKeeps(interval, states, steps, n - 1);
      assert Next(interval, states[n - 1], steps[n - 1], states[n - 1 + 1]);
      AloneKeeps(interval, states[n - 1], steps[n - 1], states[n]);
    }
  }

  lemma {:induction false} NoInterval(interval: real, states: seq<State>, steps: seq<Step>, n: nat)
    requires Run(interval, states, steps) && n < |states| && interval <= 0.0
    ensures states[n].passes == [] && states[n].tries == []
  {
    if n > 0 {
      NoInterval(interval, states, steps, n - 1);
      assert Next(interval, states[n - 1], steps[n - 1], states[n - 1 + 1]);
    }
  }

  lemma OneAtATime(interval: real, states: seq<State>, steps: seq<Step>, n: nat)
    requires Run(interval, states, steps) && AtMost(1, states) && n < |states|
    ensures Throttled(interval, states[n])
  {
    hide Run, AtMost, Next;
    RunKeeps(interval, states, steps, n);
    RunAlone(interval, states, steps, n);
    var st := states[n];
    forall i, j | 0 <= i < j < |st.tries| && st.tries[i].entry == st.tries[j].entry
      ensures st.tries[j].at - st.tries[i].at >= interval
    {
      assert DoneOnce(st, j);
      assert ListedLater(st, i, j);
    }
  }

  /** A held seat whose departure came back inconclusive, with these passes and attempts. */
  function Stuck(last: Option<real>, passes: seq<Pass>, tries: seq<Try>): State {
    State(0.0, [Entry("m", M.Seat(0.0, last, true))], map["m" := 0], passes, tries)
  }

  lemma StuckOpens(interval: real, passes: seq<Pass>)
    requires interval > 0.0
    ensures Next(interval, Stuck(None, passes, []), Open([0]), Stuck(None, passes + [Pass([0], 0, 0.0, true)], []))
  {
    assert Lists(Stuck(None, passes, []), interval, [0]);
  }

  lemma StuckAttempts(interval: real, last: Option<real>, passes: seq<Pass>, tries: seq<Try>, p: nat)
    requires p < |passes| && passes[p] == Pass([0], 0, 0.0, true)
    ensures Next(interval, Stuck(last, passes, tries), Attempt(p),
      Stuck(Some(0.0), passes[p := Pass([], 0, 0.0, true)], tries + [Try(0, p, 0.0)]))
  {
    var st := Stuck(last, passes, tries);
    assert [0][1..] == [];
    assert st.entries[0 := Stamp(st.entries[0], 0.0)] == Stuck(Some(0.0), passes, tries).entries;
  }

  lemma StuckFrom(interval: real) returns (s1: State)
    ensures Next(interval, EMPTY, Join("m"), s1) && Next(interval, s1, Mark("m"), Stuck(None, [], [])) && s1.passes == []
  {
    s1 := State(0.0, [Entry("m", M.Seat(0.0, None, false))], map["m" := 0], [], []);
  }

  ghost predicate Reaches(interval: real, states: seq<State>, steps: seq<Step>, st: State) {
    Run(interval, states, steps) && AtMost(2, states) && states[|steps|] == st
  }

  lemma Extend(interval: real, states: seq<State>, steps: seq<Step>, st: State, step: Step, st': State) returns (states': seq<State>, steps': seq<Step>)
    requires Reaches(interval, states, steps, st) && Next(interval, st, step, st') && |st'.passes| <= 2
    ensures Reaches(interval, states', steps', st')
  {
    hide Next, OpenPasses;
    states', steps' := states + [st'], steps + [step];
    assert |OpenPasses(st')| <= 2 by { OpenCard(st'); }
    forall i | 0 <= i < |steps'|
      ensures Next(interval, states'[i], steps'[i], states'[i + 1])
    {
      if i < |steps| {
        assert states'[i] == states[i] && states'[i + 1] == states[i + 1] && steps'[i] == steps[i];
      }
    }
  }

  lemma OpenCard(st: State)
    requires |st.passes| <= 2
    ensures |OpenPasses(st)| <= 2
  {
    SubsetCard(OpenPasses(st), {0, 1});
  }

  lemma NothingYet(interval: real)
    ensures Reaches(interval, [EMPTY], [], EMPTY)
  {
    assert OpenPasses(EMPTY) == {};
  }

  /** Two passes that list the same seat before either has attempted it. */
  lemma TwoPasses(interval: real) returns (states: seq<State>, steps: seq<Step>)
    requires interval > 0.0
    ensures Run(interval, states, steps) && AtMost(2, states) && !Throttled(interval, states[|steps|])
  {
    hide Next, Run, AtMost;
    var listed, done := Pass([0], 0, 0.0, true), Pass([], 0, 0.0, true);
    var s1 := StuckFrom(interval);
    NothingYet(interval);
    states, steps := Extend(interval, [EMPTY], [], EMPTY, Join("m"), s1);
    states, steps := Extend(interval, states, steps, s1, Mark("m"), Stuck(None, [], []));
    StuckOpens(interval, []);
    states, steps := Extend(interval, states, steps, Stuck(None, [], []), Open([0]), Stuck(None, [] + [listed], []));
    StuckOpens(interval, [] + [listed]);
    var two := [] + [listed] + [listed];
    states, steps := Extend(interval, states, steps, Stuck(None, [] + [listed], []), Open([0]), Stuck(None, two, []));
    StuckAttempts(interval, None, two, [], 0);
    var one, first := two[0 := done], [] + [Try(0, 0, 0.0)];
    states, steps := Extend(interval, states, steps, Stuck(None, two, []), Attempt(0), Stuck(Some(0.0), one, first));
    StuckAttempts(interval, Some(0.0), one, first, 1);
    var last := Stuck(Some(0.0), one[1 := done], first + [Try(0, 1, 0.0)]);
    states, steps := Extend(interval, states, steps, Stuck(Some(0.0), one, first), Attempt(1), last);
    assert last.tries[0].entry == last.tries[1].entry && last.tries[1].at - last.tries[0].at < interval;
  }

  /** The throttle holds in every run with at most `k` passes under way at once if and only if `k` is at
      most one, or nothing is reconciled at all. */
  lemma ThrottleIff(interval: real, k: nat)
    ensures k <= 1 || interval <= 0.0 <==>
      forall states, steps :: Run(interval, states, steps) && AtMost(k, states) ==> Throttled(interval, states[|steps|])
  {
    hide Next, Throttled;
    if k <= 1 || interval <= 0.0 {
      forall states, steps | Run(interval, states, steps) && AtMost(k, states)
        ensures Throttled(interval, states[|steps|])
      {
        if k <= 1 {
          OneAtATime(interval, states, steps, |steps|);
        } else {
          NoInterval(interval, states, steps, |steps|);
          NothingTried(interval, states[|steps|]);
        }
      }
    } else {
      var states, steps := TwoPasses(interval);
      assert AtMost(k, states);
    }
  }

  lemma NothingTried(interval: real, st: State)
    requires st.tries == []
    ensures Throttled(interval, st)
  {
  }
}
