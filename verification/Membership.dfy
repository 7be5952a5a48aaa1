/** Accounting for the seats the bot holds in meetings. */
module Membership {
  import opened Wrappers

  // ---- the books -----------------------------------------------------------------------------------

  datatype Seat = Seat(confirmedAt: real, lastAttemptAt: Option<real>, unresolved: bool)

  /** The seats held, how many were given back on which evidence, and how many were ever taken. */
  datatype Books = Books(seats: map<string, Seat>, released: map<string, nat>, taken: nat)

  /** The answer to a departure call. */
  datatype Answer = Answer(ok: bool, feishuCode: Option<int>, status: Option<int>)

  const ABSENCE_FEISHU_CODES := {121105, 120004}
  const ABSENCE_HTTP_STATUSES := {404}

  function CodeText(code: int): string {
    if code == 121105 then "121105" else if code == 120004 then "120004" else "404"
  }

  /** What an answer proves about the seat: the evidence to release it on, or nothing. */
  function Evidence(a: Answer): Option<string> {
    if a.ok then Some("ok")
    else if a.feishuCode.Some? && a.feishuCode.value in ABSENCE_FEISHU_CODES then Some(CodeText(a.feishuCode.value))
    else if a.status.Some? && a.status.value in ABSENCE_HTTP_STATUSES then Some(CodeText(a.status.value))
    else None
  }

  function Bumped(released: map<string, nat>, evidence: string): map<string, nat> {
    released[evidence := (if evidence in released then released[evidence] else 0) + 1]
  }

  function Added(b: Books, id: string, now: real): Books {
    if id == "" then b
    else if id in b.seats then b.(seats := b.seats[id := b.seats[id].(unresolved := false, confirmedAt := now)])
    else b.(seats := b.seats[id := Seat(now, None, false)], taken := b.taken + 1)
  }

  function Touched(b: Books, id: string, now: real): Books {
    if id in b.seats then b.(seats := b.seats[id := b.seats[id].(confirmedAt := now)]) else b
  }

  function Released(b: Books, id: string, evidence: string): Books {
    if id in b.seats then b.(seats := b.seats - {id}, released := Bumped(b.released, evidence)) else b
  }

  function Noted(b: Books, id: string, answer: Option<Answer>): Books {
    if answer.None? then b
    else
      var e := Evidence(answer.value);
      if e.Some? then Released(b, id, e.value)
      else if id in b.seats then b.(seats := b.seats[id := b.seats[id].(unresolved := true)])
      else b
  }

  function Attempted(b: Books, id: string, now: real): Books {
    if id in b.seats then b.(seats := b.seats[id := b.seats[id].(lastAttemptAt := Some(now))]) else b
  }

  /** The deadline has passed for a seat without a live session. */
  predicate Overdue(b: Books, id: string, maxAge: real, now: real, live: set<string>) {
    maxAge > 0.0 && id in b.seats && id !in live && !(now - b.seats[id].confirmedAt < maxAge)
  }

  // ---- conservation --------------------------------------------------------------------------------

  ghost function Total(released: map<string, nat>): nat {
    if released == map[] then 0
    else var e :| e in released; released[e] + Total(released - {e})
  }

  lemma {:induction false} TotalWithout(released: map<string, nat>, e: string)
    requires e in released
    ensures Total(released) == released[e] + Total(released - {e})
  {
    var x :| x in released && Total(released) == released[x] + Total(released - {x});
    if x != e {
      TotalWithout(released - {x}, e);
      TotalWithout(released - {e}, x);
      assert (released - {x}) - {e} == (released - {e}) - {x};
    }
  }

  lemma TotalBumped(released: map<string, nat>, e: string)
    ensures Total(Bumped(released, e)) == Total(released) + 1
  {
    var bumped := Bumped(released, e);
    TotalWithout(bumped, e);
    assert bumped - {e} == released - {e};
    if e in released {
      TotalWithout(released, e);
    } else {
      assert released - {e} == released;
    }
  }

  /** Every seat ever taken is held or was given back on some evidence. */
  ghost predicate Balanced(b: Books) {
    b.taken == |b.seats| + Total(b.released)
  }

  datatype Op =
    | Add(id: string, now: real)
    | Touch(id: string, now: real)
    | Release(id: string, evidence: string)
    | Note(id: string, answer: Option<Answer>)
    | Attempt(id: string, now: real)
    | Expire(id: string, maxAge: real, now: real, live: set<string>)

  function Apply(b: Books, op: Op): Books {
    match op
    case Add(id, now) => Added(b, id, now)
    case Touch(id, now) => Touched(b, id, now)
    case Release(id, evidence) => Released(b, id, evidence)
    case Note(id, answer) => Noted(b, id, answer)
    case Attempt(id, now) => Attempted(b, id, now)
    case Expire(id, maxAge, now, live) => if Overdue(b, id, maxAge, now, live) then Released(b, id, "ttl") else b
  }

  function ApplyAll(b: Books, ops: seq<Op>): Books {
    if ops == [] then b else Apply(ApplyAll(b, ops[..|ops| - 1]), ops[|ops| - 1])
  }

  const NO_BOOKS := Books(map[], map[], 0)

  lemma ReleasedBalanced(b: Books, id: string, evidence: string)
    requires Balanced(b)
    ensures Balanced(Released(b, id, evidence))
  {
    TotalBumped(b.released, evidence);
  }

  lemma SameSizeBalanced(b: Books, b': Books)
    requires Balanced(b) && b'.seats.Keys == b.seats.Keys && b'.released == b.released && b'.taken == b.taken
    ensures Balanced(b')
  {
    assert |b.seats| == |b.seats.Keys| && |b'.seats| == |b'.seats.Keys|;
  }

  lemma AttemptBalanced(b: Books, id: string, now: real)
    requires Balanced(b)
    ensures Balanced(Attempted(b, id, now))
  {
    hide Balanced;
    SameSizeBalanced(b, Attempted(b, id, now));
  }

  lemma ReleasedAbsent(b: Books, id: string, evidence: string)
    ensures id !in b.seats ==> Released(b, id, evidence) == b
  {
  }

  lemma NewSeatBalanced(b: Books, id: string, seat: Seat)
    requires Balanced(b) && id !in b.seats
    ensures Balanced(Books(b.seats[id := seat], b.released, b.taken + 1))
  {
  }

  lemma ApplyBalanced(b: Books, op: Op)
    requires Balanced(b)
    ensures Balanced(Apply(b, op))
  {
    hide Total, Released;
    match op {
      case Release(id, evidence) => ReleasedBalanced(b, id, evidence);
      case Note(id, answer) =>
        if answer.Some? && Evidence(answer.value).Some? {
          ReleasedBalanced(b, id, Evidence(answer.value).value);
        }
      case Expire(id, _, _, _) => ReleasedBalanced(b, id, "ttl");
      case _ =>
    }
  }

  /** Over every sequence of operations: seats taken equal seats held plus seats given back. */
  lemma {:induction false} SeatsConserved(ops: seq<Op>)
    ensures Balanced(ApplyAll(NO_BOOKS, ops))
  {
    if ops == [] {
      assert Total(map[]) == 0;
    } else {
      SeatsConserved(ops[..|ops| - 1]);
      ApplyBalanced(ApplyAll(NO_BOOKS, ops[..|ops| - 1]), ops[|ops| - 1]);
    }
  }

  lemma AddingNobody(b: Books, now: real)
    ensures Added(b, "", now) == b
  {
  }

  // ---- one answer, noted twice ---------------------------------------------------------------------

  /** An answer that leaves the seat of `id` unresolved. */
  predicate Marks(op: Op, id: string) {
    op.Note? && op.id == id && op.answer.Some? && Evidence(op.answer.value).None?
  }

  /** The seat was taken again in between and the new seat stands: nothing has ended it and, for an
      answer that proves nothing, nothing has marked it either. */
  ghost predicate RejoinStands(b: Books, ops: seq<Op>, id: string, inconclusive: bool) {
    id != "" && exists k :: 0 <= k < |ops| && StandsSince(b, ops, id, inconclusive, k)
  }

  ghost predicate StandsSince(b: Books, ops: seq<Op>, id: string, inconclusive: bool, k: int)
    requires 0 <= k < |ops|
  {
    && ops[k].Add? && ops[k].id == id
    && (forall j :: k < j <= |ops| ==> HeldAt(b, ops, id, j))
    && (inconclusive ==> forall j :: k < j < |ops| ==> !Marks(ops[j], id))
  }

  predicate HeldAt(b: Books, ops: seq<Op>, id: string, j: int)
    requires 0 <= j <= |ops|
  {
    id in ApplyAll(b, ops[..j]).seats
  }

  /** Noting this answer would change something. */
  predicate Matters(b: Books, id: string, a: Answer) {
    id in b.seats && (Evidence(a).Some? || !b.seats[id].unresolved)
  }

  lemma MattersIff(b: Books, id: string, a: Answer)
    ensures Noted(b, id, Some(a)) != b <==> Matters(b, id, a)
    ensures !Matters(Noted(b, id, Some(a)), id, a)
  {
    if Matters(b, id, a) {
      assert Evidence(a).Some? ==> id !in Noted(b, id, Some(a)).seats;
    }
  }

  lemma MattersNext(b: Books, op: Op, id: string, a: Answer)
    ensures Matters(Apply(b, op), id, a) <==>
      || (op.Add? && op.id == id && id != "")
      || (Matters(b, id, a) && id in Apply(b, op).seats && !(Evidence(a).None? && Marks(op, id)))
  {
  }

  lemma StandsFront(b: Books, ops: seq<Op>, id: string, inconclusive: bool, k: nat)
    requires k < |ops| - 1
    ensures StandsSince(b, ops, id, inconclusive, k) <==>
      && StandsSince(b, ops[..|ops| - 1], id, inconclusive, k)
      && id in ApplyAll(b, ops).seats && !(inconclusive && Marks(ops[|ops| - 1], id))
  {
    var front, n := ops[..|ops| - 1], |ops|;
    assert HeldAt(b, ops, id, n) <==> id in ApplyAll(b, ops).seats by { assert ops[..n] == ops; }
    forall j | 0 <= j < n
      ensures HeldAt(b, ops, id, j) <==> HeldAt(b, front, id, j)
    {
      assert ops[..j] == front[..j];
    }
    hide HeldAt, ApplyAll, Marks;
  }

  lemma StandsNow(b: Books, ops: seq<Op>, id: string, inconclusive: bool)
    requires ops != [] && id != ""
    ensures StandsSince(b, ops, id, inconclusive, |ops| - 1) <==> ops[|ops| - 1].Add? && ops[|ops| - 1].id == id
  {
    hide Apply, Marks;
    assert ops[..|ops|] == ops;
    if ops[|ops| - 1].Add? && ops[|ops| - 1].id == id {
      AddHolds(ApplyAll(b, ops[..|ops| - 1]), ops[|ops| - 1]);
    }
  }

  lemma RejoinNext(b: Books, ops: seq<Op>, id: string, inconclusive: bool)
    requires ops != []
    ensures var front, op := ops[..|ops| - 1], ops[|ops| - 1];
      RejoinStands(b, ops, id, inconclusive) <==>
        || (op.Add? && op.id == id && id != "")
        || (RejoinStands(b, front, id, inconclusive) && id in ApplyAll(b, ops).seats && !(inconclusive && Marks(op, id)))
  {
    hide StandsSince, ApplyAll, Marks;
    var front := ops[..|ops| - 1];
    if id != "" {
      StandsNow(b, ops, id, inconclusive);
      forall k | 0 <= k < |front|
        ensures StandsSince(b, ops, id, inconclusive, k) <==>
          StandsSince(b, front, id, inconclusive, k) && id in ApplyAll(b, ops).seats && !(inconclusive && Marks(ops[|ops| - 1], id))
      {
        StandsFront(b, ops, id, inconclusive, k);
      }
    }
  }

  lemma AddHolds(b: Books, op: Op)
    requires op.Add? && op.id != ""
    ensures op.id in Apply(b, op).seats
  {
  }

  lemma {:induction false} MattersAfter(b: Books, ops: seq<Op>, id: string, a: Answer)
    requires !Matters(b, id, a)
    ensures Matters(ApplyAll(b, ops), id, a) <==> RejoinStands(b, ops, id, Evidence(a).None?)
  {
    if ops != [] {
      hide Apply, Matters, RejoinStands, Marks;
      var front := ops[..|ops| - 1];
      MattersAfter(b, front, id, a);
      MattersNext(ApplyAll(b, front), ops[|ops| - 1], id, a);
      RejoinNext(b, ops, id, Evidence(a).None?);
    }
  }

  /** An answer is noted by the departure call and again by the reconciliation that made it, with any
      operations in between. The second time changes the books if and only if the meeting was joined
      again in between and the new seat stands. */
  lemma SecondNoteMatters(b: Books, id: string, answer: Option<Answer>, ops: seq<Op>)
    ensures var b' := ApplyAll(Noted(b, id, answer), ops);
      Noted(b', id, answer) != b' <==>
        answer.Some? && RejoinStands(Noted(b, id, answer), ops, id, Evidence(answer.value).None?)
  {
    if answer.Some? {
      hide Noted, Matters, RejoinStands;
      MattersIff(b, id, answer.value);
      MattersAfter(Noted(b, id, answer), ops, id, answer.value);
      MattersIff(ApplyAll(Noted(b, id, answer), ops), id, answer.value);
    }
  }

  /** Without a join of that meeting in between, noting twice is noting once. */
  lemma NotingTwiceIsOnce(b: Books, id: string, answer: Option<Answer>, ops: seq<Op>)
    requires forall k :: 0 <= k < |ops| ==> !(ops[k].Add? && ops[k].id == id)
    ensures var b' := ApplyAll(Noted(b, id, answer), ops); Noted(b', id, answer) == b'
  {
    SecondNoteMatters(b, id, answer, ops);
  }

  /** With one, the late answer takes the seat of a meeting the bot has just joined again. */
  lemma RejoinedSeatIsLost(now: real)
    ensures var left := Some(Answer(true, None, None));
      var b := ApplyAll(NO_BOOKS, [Add("m", now), Note("m", left), Add("m", now)]);
      "m" in b.seats && "m" !in Noted(b, "m", left).seats
  {
    var left := Some(Answer(true, None, None));
    var one, two := [Add("m", now)], [Add("m", now), Note("m", left)];
    var three := [Add("m", now), Note("m", left), Add("m", now)];
    assert one[..0] == [] && two[..1] == one && three[..2] == two;
    assert ApplyAll(NO_BOOKS, []) == NO_BOOKS;
    var b1 := Added(NO_BOOKS, "m", now);
    assert ApplyAll(NO_BOOKS, one) == Apply(ApplyAll(NO_BOOKS, one[..0]), one[0]) == b1;
    assert ApplyAll(NO_BOOKS, two) == Apply(ApplyAll(NO_BOOKS, two[..1]), two[1]) == Noted(b1, "m", left);
    assert ApplyAll(NO_BOOKS, three) == Added(Noted(b1, "m", left), "m", now);
  }

  // ---- seats go only on proof ----------------------------------------------------------------------

  /** The operation proves that the seat is gone: the meeting was released on some evidence, an answer
      proves absence, or a deadline passed without a live session. */
  predicate Proves(b: Books, op: Op, id: string) {
    match op
    case Release(x, _) => x == id
    case Note(x, answer) => x == id && answer.Some? && Evidence(answer.value).Some?
    case Expire(x, maxAge, now, live) => x == id && Overdue(b, id, maxAge, now, live)
    case _ => false
  }

  lemma EndsIff(b: Books, op: Op, id: string)
    requires id in b.seats
    ensures id !in Apply(b, op).seats <==> Proves(b, op, id)
  {
  }

  /** Over any operations: a seat that was held and is not any more was ended by a proving operation
      on it, which found it held. */
  lemma {:induction false} SeatsGoOnlyOnProof(b: Books, ops: seq<Op>, id: string) returns (k: nat)
    requires id in b.seats && id !in ApplyAll(b, ops).seats
    ensures k < |ops| && id in ApplyAll(b, ops[..k]).seats && Proves(ApplyAll(b, ops[..k]), ops[k], id)
  {
    var front, op := ops[..|ops| - 1], ops[|ops| - 1];
    if id in ApplyAll(b, front).seats {
      k := |front|;
      EndsIff(ApplyAll(b, front), op, id);
    } else {
      k := SeatsGoOnlyOnProof(b, front, id);
      assert front[..k] == ops[..k] && front[k] == ops[k];
    }
  }

  // ---- reconciliation ------------------------------------------------------------------------------

  /** An unresolved departure is tried again once the interval has passed. */
  predicate Due(s: Seat, interval: real, now: real) {
    s.unresolved && (s.lastAttemptAt.None? || now - s.lastAttemptAt.value >= interval)
  }

  // ---- what a pass does to the books ---------------------------------------------------------------

  ghost predicate NoRepeats(ids: seq<string>) {
    forall i, j :: 0 <= i < j < |ids| ==> ids[i] != ids[j]
  }

  function Stamped(b: Books, ids: seq<string>, now: real): Books {
    b.(seats := map k | k in b.seats :: if k in ids then b.seats[k].(lastAttemptAt := Some(now)) else b.seats[k])
  }

  function Answered(b: Books, ids: seq<string>, answers: map<string, Answer>): Books {
    if ids == [] then b
    else
      var front, k := Answered(b, ids[..|ids| - 1], answers), ids[|ids| - 1];
      if k in answers then Noted(front, k, Some(answers[k])) else front
  }

  lemma StampedNone(b: Books, now: real)
    ensures Stamped(b, [], now) == b
  {
  }

  lemma StampedNext(b: Books, ids: seq<string>, i: nat, now: real)
    requires i < |ids|
    ensures Stamped(b, ids[..i + 1], now) == Attempted(Stamped(b, ids[..i], now), ids[i], now)
  {
    assert ids[..i + 1] == ids[..i] + [ids[i]];
  }

  lemma AnsweredNone(b: Books, answers: map<string, Answer>)
    ensures Answered(b, [], answers) == b
  {
  }

  lemma AnsweredNext(b: Books, ids: seq<string>, i: nat, answers: map<string, Answer>)
    requires i < |ids|
    ensures Answered(b, ids[..i + 1], answers) ==
      var front := Answered(b, ids[..i], answers);
      if ids[i] in answers then Noted(front, ids[i], Some(answers[ids[i]])) else front
  {
    assert ids[..i + 1][..i] == ids[..i];
  }

  lemma StampNoted(b: Books, ids: seq<string>, now: real, id: string, a: Answer)
    ensures Stamped(Noted(b, id, Some(a)), ids, now) == Noted(Stamped(b, ids, now), id, Some(a))
  {
  }

  lemma {:induction false} StampAnswered(b: Books, ids: seq<string>, now: real, done: seq<string>, answers: map<string, Answer>)
    ensures Stamped(Answered(b, done, answers), ids, now) == Answered(Stamped(b, ids, now), done, answers)
  {
    hide Noted, Stamped;
    if done != [] {
      var front, k := done[..|done| - 1], done[|done| - 1];
      StampAnswered(b, ids, now, front, answers);
      if k in answers {
        StampNoted(Answered(b, front, answers), ids, now, k, answers[k]);
      }
    }
  }

  lemma {:induction false} AnsweredConcat(b: Books, done: seq<string>, more: seq<string>, answers: map<string, Answer>)
    ensures Answered(Answered(b, done, answers), more, answers) == Answered(b, done + more, answers)
  {
    hide Noted;
    if more == [] {
      assert done + more == done;
    } else {
      AnsweredConcat(b, done, more[..|more| - 1], answers);
      assert (done + more)[..|done + more| - 1] == done + more[..|more| - 1];
    }
  }

  /** A pass over a list, then over another, is a pass over both. */
  lemma NextBatch(b: Books, done: seq<string>, more: seq<string>, now: real, answers: map<string, Answer>)
    ensures Answered(Stamped(Answered(Stamped(b, done, now), done, answers), more, now), more, answers)
      == Answered(Stamped(b, done + more, now), done + more, answers)
  {
    hide Answered;
    StampAnswered(Stamped(b, done, now), more, now, done, answers);
    assert Stamped(Stamped(b, done, now), more, now) == Stamped(b, done + more, now);
    AnsweredConcat(Stamped(b, done + more, now), done, more, answers);
  }

  lemma NothingDone(b: Books, now: real, answers: map<string, Answer>)
    ensures Answered(Stamped(b, [], now), [], answers) == b
  {
    StampedNone(b, now);
  }

  /** What a pass makes of each seat. */
  lemma {:induction false} AnsweredIs(b: Books, ids: seq<string>, answers: map<string, Answer>, k: string)
    ensures var r := Answered(b, ids, answers);
      && (k in r.seats <==> k in b.seats && !(k in ids && k in answers && Evidence(answers[k]).Some?))
      && (k in r.seats ==> r.seats[k] == if k in ids && k in answers then b.seats[k].(unresolved := true) else b.seats[k])
  {
    if ids != [] {
      hide Bumped, Evidence;
      AnsweredIs(b, ids[..|ids| - 1], answers, k);
      assert ids == ids[..|ids| - 1] + [ids[|ids| - 1]];
    }
  }

  lemma PassDone(b: Books, due: seq<string>, now: real, interval: real, answers: map<string, Answer>, k: string)
    requires interval > 0.0 && forall x :: x in due <==> x in b.seats && Due(b.seats[x], interval, now)
    ensures var r := Answered(Stamped(b, due, now), due, answers);
      && (k in r.seats ==> k in b.seats && !Due(r.seats[k], interval, now))
      && (k in b.seats ==>
            if Due(b.seats[k], interval, now) then
              if k in answers && Evidence(answers[k]).Some? then k !in r.seats
              else k in r.seats && r.seats[k] == b.seats[k].(lastAttemptAt := Some(now))
            else k in r.seats && r.seats[k] == b.seats[k])
  {
    hide Answered, Evidence;
    AnsweredIs(Stamped(b, due, now), due, answers, k);
  }

  lemma JoinedPrefix(batches: seq<seq<string>>, i: nat)
    requires i < |batches|
    ensures Joined(batches[..i + 1]) == Joined(batches[..i]) + batches[i]
    ensures Joined(batches[..i]) + batches[i] <= Joined(batches)
  {
    assert batches[..i + 1][..i] == batches[..i];
    JoinedGrows(batches, i + 1);
  }

  lemma {:induction false} JoinedGrows(batches: seq<seq<string>>, i: nat)
    requires i <= |batches|
    ensures Joined(batches[..i]) <= Joined(batches)
  {
    if i == |batches| {
      assert batches[..i] == batches;
    } else {
      JoinedGrows(batches[..|batches| - 1], i);
      assert batches[..|batches| - 1][..i] == batches[..i];
    }
  }

  /** A seat that is still to be attempted is still held. */
  lemma StillHeld(b: Books, done: seq<string>, more: seq<string>, due: seq<string>, now: real, answers: map<string, Answer>)
    requires NoRepeats(due) && done + more <= due && forall k :: k in due ==> k in b.seats
    ensures forall k :: k in more ==> k in Answered(Stamped(b, done, now), done, answers).seats
  {
    forall k | k in more
      ensures k in Answered(Stamped(b, done, now), done, answers).seats
    {
      var i :| 0 <= i < |more| && more[i] == k;
      assert due[|done| + i] == (done + more)[|done| + i] == k;
      forall j | 0 <= j < |done|
        ensures done[j] != k
      {
        assert due[j] == (done + more)[j] == done[j];
      }
      assert k in due;
      AnsweredIs(Stamped(b, done, now), done, answers, k);
    }
  }

  // ---- the ledger ----------------------------------------------------------------------------------

  class Entry {
    const meetingId: string
    var confirmedAt: real
    var lastAttemptAt: Option<real>
    var departureUnresolved: bool

    constructor (meetingId: string, now: real)
      ensures this.meetingId == meetingId && Value() == Seat(now, None, false)
    {
      this.meetingId := meetingId;
      confirmedAt, lastAttemptAt, departureUnresolved := now, None, false;
    }

    function Value(): Seat
      reads this
    {
      Seat(confirmedAt, lastAttemptAt, departureUnresolved)
    }
  }

  class MembershipLedger {
    const maxAge: real
    const interval: real
    const maxConcurrency: nat
    var entries: map<string, Entry>

    // health
    var held: nat
    var retained: nat
    var releasedByEvidence: map<string, nat>
    var reconcileAttempts: nat

    ghost var taken: nat

    ghost function View(): Books
      reads this`entries, this`releasedByEvidence, this`taken, entries.Values
    {
      Books(map k | k in entries :: entries[k].Value(), releasedByEvidence, taken)
    }

    lemma ViewKeys()
      ensures forall k :: k in View().seats <==> k in entries
    {
    }

    function Unresolved(): set<string>
      reads this`entries, entries.Values
    {
      set k | k in entries && entries[k].departureUnresolved
    }

    /** The health counters count what they say. */
    lemma CountersTrue()
      requires Valid()
      ensures held == |View().seats| && retained == |set k | k in View().seats && View().seats[k].unresolved|
    {
      ViewKeys();
      assert View().seats.Keys == entries.Keys && |View().seats.Keys| == |View().seats| && |entries.Keys| == |entries|;
      assert Unresolved() == set k | k in View().seats && View().seats[k].unresolved;
    }

    ghost predicate Keyed()
      reads this`entries
    {
      "" !in entries && forall k :: k in entries ==> entries[k].meetingId == k
    }

    /** The health counters are the real counts, and the books balance. */
    ghost predicate Valid()
      reads this, entries.Values
    {
      Keyed() && held == |entries| && retained == |Unresolved()| && Balanced(View())
    }

    constructor (maxAge: real, interval: real, reconcileMaxConcurrency: int)
      ensures Valid() && View() == NO_BOOKS && maxConcurrency > 0
      ensures this.maxAge == maxAge && this.interval == interval
    {
      this.maxAge, this.interval := maxAge, interval;
      maxConcurrency := if reconcileMaxConcurrency < 1 then 1 else reconcileMaxConcurrency;
      entries, held, retained, releasedByEvidence, reconcileAttempts, taken := map[], 0, 0, map[], 0, 0;
      new;
      assert Total(map[]) == 0;
      assert View() == NO_BOOKS;
      assert Unresolved() == {};
    }

    method SyncHealth()
      requires Keyed() && Balanced(View())
      modifies this`held, this`retained
      ensures Valid() && View() == old(View())
    {
      hide Balanced;
      held := |entries|;
      ghost var u := Unresolved();
      retained := |Unresolved()|;
      assert Unresolved() == u;
      assert View().seats == old(View().seats);
    }

    method AddMeeting(id: string, now: real)
      requires Valid()
      modifies this, entries.Values
      ensures Valid() && View() == Added(old(View()), id, now) && fresh(entries.Values - old(entries.Values))
    {
      hide Balanced, View, Added;
      if id == "" {
        assert View() == Added(View(), id, now) by { AddingNobody(View(), now); }
        return;
      }
      if id !in entries {
        AddNew(id, now);
      } else {
        Renew(id, now);
      }
    }

    method AddNew(id: string, now: real)
      requires Valid() && id != "" && id !in entries
      modifies this
      ensures Valid() && View() == Added(old(View()), id, now) && fresh(entries.Values - old(entries.Values))
    {
      hide Balanced, Total;
      ghost var b := View();
      NewSeatBalanced(b, id, Seat(now, None, false));
      var e := new Entry(id, now);
      PutEntry(id, e);
      SyncHealth();
    }

    method PutEntry(id: string, e: Entry)
      requires Keyed() && id != "" && id !in entries && e.meetingId == id
      modifies this`entries, this`taken
      ensures Keyed() && entries == old(entries)[id := e]
      ensures View() == Books(old(View()).seats[id := e.Value()], releasedByEvidence, old(taken) + 1)
    {
      ghost var seats := View().seats;
      entries := entries[id := e];
      taken := taken + 1;
      assert View().seats == seats[id := e.Value()];
    }

    /** Joining a meeting again resets its entry. */
    method Renew(id: string, now: real)
      requires Valid() && id in entries
      modifies this`held, this`retained, entries.Values
      ensures Valid() && View() == Added(old(View()), id, now)
    {
      hide Balanced;
      ghost var b := View();
      entries[id].departureUnresolved := false;
      entries[id].confirmedAt := now;
      assert View().seats == b.seats[id := b.seats[id].(unresolved := false, confirmedAt := now)];
      SameSizeBalanced(b, View());
      SyncHealth();
    }

    method TouchMeeting(id: string, now: real)
      requires Valid()
      modifies entries.Values
      ensures Valid() && View() == Touched(old(View()), id, now)
    {
      hide Balanced;
      ghost var b := View();
      if id in entries {
        entries[id].confirmedAt := now;
        assert View().seats == b.seats[id := b.seats[id].(confirmedAt := now)];
        SameSizeBalanced(b, View());
      }
      assert Unresolved() == old(Unresolved());
    }

    method ReleaseMeeting(id: string, evidence: string) returns (was: bool)
      requires Valid()
      modifies this
      ensures Valid() && View() == Released(old(View()), id, evidence) && was == (id in old(entries))
      ensures entries == old(entries) - {id} && taken == old(taken) && reconcileAttempts == old(reconcileAttempts)
      ensures releasedByEvidence == if was then Bumped(old(releasedByEvidence), evidence) else old(releasedByEvidence)
    {
      hide Balanced, Bumped, View, Released;
      ReleasedBalanced(View(), id, evidence);
      ViewKeys();
      if id !in entries {
        ReleasedAbsent(View(), id, evidence);
        assert entries - {id} == entries;
        return false;
      }
      RemoveEntry(id, evidence);
      SyncHealth();
      return true;
    }

    method RemoveEntry(id: string, evidence: string)
      requires Keyed() && id in entries
      modifies this`entries, this`releasedByEvidence
      ensures Keyed() && View() == Released(old(View()), id, evidence) && entries == old(entries) - {id}
      ensures releasedByEvidence == Bumped(old(releasedByEvidence), evidence)
    {
      hide Bumped;
      ghost var seats := View().seats;
      entries := entries - {id};
      releasedByEvidence := Bumped(releasedByEvidence, evidence);
      assert View().seats == seats - {id};
    }

    method NoteDepartureOutcome(id: string, answer: Option<Answer>)
      requires Valid()
      modifies this, entries.Values
      ensures Valid() && View() == Noted(old(View()), id, answer)
      ensures reconcileAttempts == old(reconcileAttempts) && entries.Values <= old(entries).Values
    {
      hide Balanced, Bumped, View, Released, Valid;
      if answer.None? {
        return;
      }
      var a := answer.value;
      if a.ok {
        var _ := ReleaseMeeting(id, "ok");
        return;
      }
      if a.feishuCode.Some? && a.feishuCode.value in ABSENCE_FEISHU_CODES {
        var _ := ReleaseMeeting(id, CodeText(a.feishuCode.value));
        return;
      }
      if a.status.Some? && a.status.value in ABSENCE_HTTP_STATUSES {
        var _ := ReleaseMeeting(id, CodeText(a.status.value));
        return;
      }
      MarkUnresolved(id);
    }

    method MarkUnresolved(id: string)
      requires Valid()
      modifies this`held, this`retained, entries.Values
      ensures Valid()
      ensures View() == if id in old(View()).seats
        then old(View()).(seats := old(View()).seats[id := old(View()).seats[id].(unresolved := true)]) else old(View())
    {
      hide Balanced;
      ghost var b := View();
      if id in entries {
        entries[id].departureUnresolved := true;
        assert View().seats == b.seats[id := b.seats[id].(unresolved := true)];
        SameSizeBalanced(b, View());
        SyncHealth();
      }
    }

    /** Releases every seat past its deadline, never one with a live session. */
    method ExpireOverdue(now: real, live: set<string>)
      requires Valid()
      modifies this
      ensures Valid()
      ensures forall k :: k in entries <==> k in old(entries) && !Overdue(old(View()), k, maxAge, now, live)
      ensures forall k :: k in entries <==>
        k in old(entries) && (maxAge <= 0.0 || k in live || now - old(entries)[k].confirmedAt < maxAge)
      ensures forall k :: k in entries ==> entries[k] == old(entries)[k]
      ensures taken == old(taken) && OnlyTtl(old(releasedByEvidence), releasedByEvidence)
    {
      hide Balanced, Released, Bumped, OnlyTtl;
      OnlyTtlBumped(releasedByEvidence, releasedByEvidence);
      if maxAge <= 0.0 {
        return;
      }
      var todo := entries.Keys;
      while todo != {}
        invariant Valid() && todo <= old(entries).Keys
        invariant forall k :: k in entries <==> k in old(entries) && (k in todo || !Overdue(old(View()), k, maxAge, now, live))
        invariant forall k :: k in entries ==> entries[k] == old(entries)[k]
        invariant taken == old(taken) && OnlyTtl(old(releasedByEvidence), releasedByEvidence)
        decreases |todo|
      {
        var id :| id in todo;
        todo := todo - {id};
        if id in live {
          continue;
        }
        if now - entries[id].confirmedAt < maxAge {
          continue;
        }
        OnlyTtlBumped(old(releasedByEvidence), releasedByEvidence);
        var _ := ReleaseMeeting(id, "ttl");
      }
    }

    /** The seats currently taken, after expiry. */
    method Held(now: real, live: set<string>) returns (r: set<string>)
      requires Valid()
      modifies this
      ensures Valid() && r == entries.Keys && held == |r|
      ensures forall k :: k in r <==> k in old(entries) && (maxAge <= 0.0 || k in live || now - old(entries)[k].confirmedAt < maxAge)
    {
      ExpireOverdue(now, live);
      r := entries.Keys;
      assert |entries.Keys| == |entries|;
    }

    /** The seats one reconciliation works through: exactly the due ones. */
    function Candidates(now: real): set<string>
      reads this, entries.Values
    {
      if interval <= 0.0 then {}
      else set k | k in entries && Due(entries[k].Value(), interval, now)
    }

    /** The start of one attempt, up to the departure call. The entry object may have been released
        meanwhile. */
    method BeginAttempt(e: Entry, now: real)
      requires Valid()
      modifies e`lastAttemptAt, this`reconcileAttempts
      ensures Valid() && reconcileAttempts == old(reconcileAttempts) + 1
      ensures View() == if e.meetingId in entries && entries[e.meetingId] == e then Attempted(old(View()), e.meetingId, now) else old(View())
    {
      hide Balanced, View, Attempted;
      AttemptBalanced(View(), e.meetingId, now);
      Mark(e, now);
      reconcileAttempts := reconcileAttempts + 1;
    }

    method Mark(e: Entry, now: real)
      requires Keyed()
      modifies e`lastAttemptAt
      ensures Unresolved() == old(Unresolved())
      ensures View() == if e.meetingId in entries && entries[e.meetingId] == e then Attempted(old(View()), e.meetingId, now) else old(View())
    {
      ghost var seats := View().seats;
      e.lastAttemptAt := Some(now);
      if e.meetingId in entries && entries[e.meetingId] == e {
        assert View().seats == seats[e.meetingId := seats[e.meetingId].(lastAttemptAt := Some(now))];
      } else {
        assert View().seats == seats;
      }
    }

    // ---- a whole pass ------------------------------------------------------------------------------

    /** The due seats in some order, each once. */
    method ListDue(now: real) returns (due: seq<string>)
      requires Valid()
      ensures NoRepeats(due) && forall k :: k in due <==> k in Candidates(now)
    {
      due := [];
      var todo := Candidates(now);
      while todo != {}
        invariant NoRepeats(due) && todo <= Candidates(now)
        invariant forall k :: k in due <==> k in Candidates(now) && k !in todo
        decreases |todo|
      {
        var k :| k in todo;
        todo := todo - {k};
        due := due + [k];
      }
    }

    /** The attempts of one batch start together. */
    method StartBatch(batch: seq<string>, now: real)
      requires Valid() && forall k :: k in batch ==> k in entries
      modifies this`reconcileAttempts, entries.Values
      ensures Valid() && reconcileAttempts == old(reconcileAttempts) + |batch|
      ensures View() == Stamped(old(View()), batch, now)
    {
      hide Balanced, View, Stamped, Attempted;
      StampedNone(View(), now);
      for i := 0 to |batch|
        invariant Valid() && reconcileAttempts == old(reconcileAttempts) + i
        invariant View() == Stamped(old(View()), batch[..i], now)
      {
        assert batch[i] in batch;
        StampedNext(old(View()), batch, i, now);
        BeginAttempt(entries[batch[i]], now);
      }
      assert batch[..|batch|] == batch;
    }

    /** And are answered in some order. An attempt without an answer timed out or failed. */
    method NoteBatch(batch: seq<string>, answers: map<string, Answer>)
      requires Valid()
      modifies this, entries.Values
      ensures Valid() && View() == Answered(old(View()), batch, answers) && reconcileAttempts == old(reconcileAttempts)
      ensures entries.Values <= old(entries).Values
    {
      hide Balanced, View, Answered, Noted, Valid;
      AnsweredNone(View(), answers);
      for i := 0 to |batch|
        invariant Valid() && reconcileAttempts == old(reconcileAttempts) && entries.Values <= old(entries).Values
        invariant View() == Answered(old(View()), batch[..i], answers)
      {
        AnsweredNext(old(View()), batch, i, answers);
        if batch[i] in answers {
          NoteDepartureOutcome(batch[i], Some(answers[batch[i]]));
        }
      }
      assert batch[..|batch|] == batch;
    }

    /** One reconciliation with nothing else in between: overdue seats are released, then every due seat
        is attempted once, in batches, and afterwards none is due. */
    method Reconcile(now: real, live: set<string>, answers: map<string, Answer>)
      requires Valid() && maxConcurrency > 0
      modifies this, entries.Values
      ensures Valid()
      // Nothing that is unresolved is left unattempted for an interval.
      ensures interval > 0.0 ==> forall k :: k in View().seats && View().seats[k].unresolved ==>
        View().seats[k].lastAttemptAt.Some? && now - View().seats[k].lastAttemptAt.value < interval
      // A seat past its deadline without a session is gone.
      ensures forall k :: k in View().seats ==>
        k in old(View()).seats && (maxAge <= 0.0 || k in live || now - old(View()).seats[k].confirmedAt < maxAge)
      // Every other seat is attempted if its departure is unresolved and the interval has passed, and then
      // goes on an answer that proves absence; otherwise nothing about it changes.
      ensures forall k :: k in old(View()).seats && (maxAge <= 0.0 || k in live || now - old(View()).seats[k].confirmedAt < maxAge) ==>
        var seat := old(View()).seats[k];
        if interval > 0.0 && seat.unresolved && (seat.lastAttemptAt.None? || now - seat.lastAttemptAt.value >= interval) then
          if k in answers && (answers[k].ok || answers[k].feishuCode == Some(121105) || answers[k].feishuCode == Some(120004) || answers[k].status == Some(404))
          then k !in View().seats
          else k in View().seats && View().seats[k] == seat.(lastAttemptAt := Some(now))
        else k in View().seats && View().seats[k] == seat
    {
      hide Balanced, Stamped, Answered, View, Valid;
      ExpireSeats(now, live);
      if interval <= 0.0 {
        return;
      }
      ReconcileDue(now, answers);
    }

    method ExpireSeats(now: real, live: set<string>)
      requires Valid()
      modifies this
      ensures Valid() && entries.Values <= old(entries).Values
      ensures forall k :: k in View().seats <==> k in old(View()).seats && !Overdue(old(View()), k, maxAge, now, live)
      ensures forall k :: k in View().seats ==> View().seats[k] == old(View()).seats[k]
    {
      hide Balanced, Overdue;
      ExpireOverdue(now, live);
    }

    method ReconcileDue(now: real, answers: map<string, Answer>)
      requires Valid() && maxConcurrency > 0 && interval > 0.0
      modifies this, entries.Values
      ensures Valid()
      ensures forall k :: k in View().seats ==> k in old(View()).seats && !Due(View().seats[k], interval, now)
      ensures forall k :: k in old(View()).seats ==>
        if Due(old(View()).seats[k], interval, now) then
          if k in answers && Evidence(answers[k]).Some? then k !in View().seats
          else k in View().seats && View().seats[k] == old(View()).seats[k].(lastAttemptAt := Some(now))
        else k in View().seats && View().seats[k] == old(View()).seats[k]
    {
      hide Balanced, Stamped, Answered, View, Valid, Due;
      ghost var b := View();
      var due := ListDue(now);
      assert forall k :: k in due <==> k in b.seats && Due(b.seats[k], interval, now) by { DueSeats(now); }
      ViewKeys();
      var batches := Batches(due, maxConcurrency);
      RunBatches(due, batches, now, answers);
      forall k {
        PassDone(b, due, now, interval, answers, k);
      }
    }

    lemma DueSeats(now: real)
      requires interval > 0.0
      ensures forall k :: k in Candidates(now) <==> k in View().seats && Due(View().seats[k], interval, now)
    {
      hide Due;
    }

    method RunBatches(due: seq<string>, batches: seq<seq<string>>, now: real, answers: map<string, Answer>)
      requires Valid() && NoRepeats(due) && Joined(batches) == due && forall k :: k in due ==> k in entries
      modifies this, entries.Values
      ensures Valid() && View() == Answered(Stamped(old(View()), due, now), due, answers)
      ensures reconcileAttempts == old(reconcileAttempts) + |due|
    {
      hide Balanced, View, Stamped, Answered, Valid, NoRepeats;
      ghost var b0 := View();
      ViewKeys();
      NothingDone(b0, now, answers);
      for i := 0 to |batches|
        invariant Valid() && entries.Values <= old(entries).Values
        invariant View() == Answered(Stamped(b0, Joined(batches[..i]), now), Joined(batches[..i]), answers)
        invariant reconcileAttempts == old(reconcileAttempts) + |Joined(batches[..i])|
      {
        assert batches[..i + 1][..i] == batches[..i];
        ghost var done := Joined(batches[..i]);
        JoinedPrefix(batches, i);
        NextBatch(b0, done, batches[i], now, answers);
        StillHeld(b0, done, batches[i], due, now, answers);
        ViewKeys();
        StartBatch(batches[i], now);
        NoteBatch(batches[i], answers);
      }
      assert batches[..|batches|] == batches;
    }
  }

  /** Only the count of deadline releases differs. */
  predicate OnlyTtl(before: map<string, nat>, after: map<string, nat>) {
    before - {"ttl"} == after - {"ttl"}
  }

  lemma OnlyTtlBumped(before: map<string, nat>, after: map<string, nat>)
    ensures OnlyTtl(before, before)
    ensures OnlyTtl(before, after) ==> OnlyTtl(before, Bumped(after, "ttl"))
  {
    assert Bumped(after, "ttl") - {"ttl"} == after - {"ttl"};
  }

  function Joined(batches: seq<seq<string>>): seq<string> {
    if batches == [] then [] else Joined(batches[..|batches| - 1]) + batches[|batches| - 1]
  }

  /** The batches of one reconciliation: all candidates, in order, once each, and never more at a time
      than allowed. */
  method Batches(candidates: seq<string>, maxConcurrency: nat) returns (batches: seq<seq<string>>)
    requires maxConcurrency > 0
    ensures Joined(batches) == candidates
    ensures forall b :: b in batches ==> 0 < |b| <= maxConcurrency
  {
    batches := [];
    var start := 0;
    while start < |candidates|
      invariant 0 <= start <= |candidates|
      invariant Joined(batches) == candidates[..start]
      invariant forall b :: b in batches ==> 0 < |b| <= maxConcurrency
    {
      var end := if start + maxConcurrency < |candidates| then start + maxConcurrency else |candidates|;
      var batch := candidates[start..end];
      assert (batches + [batch])[..|batches|] == batches;
      assert candidates[..end] == candidates[..start] + batch;
      batches := batches + [batch];
      start := end;
    }
    assert candidates[..start] == candidates;
  }
}
