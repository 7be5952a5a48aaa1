/** What the books say about one seat, read off the operations themselves.

    The books are kept operation by operation. Here each field of a seat is characterised by the whole
    history instead, in terms of what was reported and when. */
module SeatHistory {
  import opened Wrappers
  import M = Membership

  /** The answer proves that the bot is not in the meeting: it left, or the platform says that the meeting
      does not exist or that it is not a participant. */
  predicate Absent(a: M.Answer) {
    a.ok || a.feishuCode == Some(121105) || a.feishuCode == Some(120004) || a.status == Some(404)
  }

  /** When the seat was last confirmed: joined, or seen active. */
  function Confirmed(ops: seq<M.Op>, id: string): Option<real> {
    if ops == [] then None
    else
      var op := ops[|ops| - 1];
      if (op.Add? || op.Touch?) && op.id == id then Some(op.now) else Confirmed(ops[..|ops| - 1], id)
  }

  /** Operation `j` ends a seat of `id`: a release, an answer that proves absence, or a deadline without a
      live session, counted from the last confirmation. */
  predicate EndsAt(ops: seq<M.Op>, id: string, j: nat)
    requires j < |ops|
  {
    var op := ops[j];
    || (op.Release? && op.id == id)
    || (op.Note? && op.id == id && op.answer.Some? && Absent(op.answer.value))
    || (op.Expire? && op.id == id && op.maxAge > 0.0 && id !in op.live
        && Confirmed(ops[..j], id).Some? && op.now - Confirmed(ops[..j], id).value >= op.maxAge)
  }

  /** The seat joined at `k` stands. */
  predicate Stands(ops: seq<M.Op>, id: string, k: nat) {
    k < |ops| && id != "" && ops[k].Add? && ops[k].id == id && forall j :: k < j < |ops| ==> !EndsAt(ops, id, j)
  }

  /** Some seat of the meeting stands. */
  ghost predicate Held(ops: seq<M.Op>, id: string) {
    exists k: nat :: Stands(ops, id, k)
  }

  /** An answer that proved nothing came, and the meeting was not joined again since. */
  predicate UnclearSince(ops: seq<M.Op>, id: string, j: nat) {
    && j < |ops| && ops[j].Note? && ops[j].id == id && ops[j].answer.Some? && !Absent(ops[j].answer.value)
    && forall i :: j < i < |ops| ==> !(ops[i].Add? && ops[i].id == id)
  }

  ghost predicate Unclear(ops: seq<M.Op>, id: string) {
    exists j: nat :: UnclearSince(ops, id, j)
  }

  /** The last attempt that fell into the stay of a seat that still stands. */
  ghost predicate LastAttempt(ops: seq<M.Op>, id: string, j: nat) {
    && j < |ops| && ops[j].Attempt? && ops[j].id == id
    && (exists k: nat :: k < j && Stands(ops, id, k))
    && forall i :: j < i < |ops| ==> !(ops[i].Attempt? && ops[i].id == id)
  }

  function Books(ops: seq<M.Op>): M.Books {
    M.ApplyAll(M.NO_BOOKS, ops)
  }

  // ---- one more operation ----------------------------------------------------------------------------

  lemma AbsentIff(a: M.Answer)
    ensures Absent(a) <==> M.Evidence(a).Some?
  {
  }

  lemma EndsFront(ops: seq<M.Op>, id: string, j: nat)
    requires j < |ops| - 1
    ensures EndsAt(ops, id, j) <==> EndsAt(ops[..|ops| - 1], id, j)
  {
    assert ops[..j] == ops[..|ops| - 1][..j];
  }

  lemma StandsFront(ops: seq<M.Op>, id: string, k: nat)
    requires ops != []
    ensures var n := |ops| - 1;
      Stands(ops, id, k) <==>
        if k == n then id != "" && ops[n].Add? && ops[n].id == id else Stands(ops[..n], id, k) && !EndsAt(ops, id, n)
  {
    hide EndsAt;
    var n, front := |ops| - 1, ops[..|ops| - 1];
    forall j: nat | j < n
      ensures EndsAt(ops, id, j) <==> EndsAt(front, id, j)
    {
      EndsFront(ops, id, j);
    }
  }

  lemma UnclearFront(ops: seq<M.Op>, id: string, j: nat)
    requires ops != []
    ensures var n, op := |ops| - 1, ops[|ops| - 1];
      UnclearSince(ops, id, j) <==>
        if j == n then op.Note? && op.id == id && op.answer.Some? && !Absent(op.answer.value)
        else UnclearSince(ops[..n], id, j) && !(op.Add? && op.id == id)
  {
    hide Absent;
    var n, front := |ops| - 1, ops[..|ops| - 1];
    assert forall i :: 0 <= i < n ==> front[i] == ops[i];
  }

  /** The fields of a seat, as far as they depend on the operations. */
  ghost predicate Tells(ops: seq<M.Op>, id: string) {
    var b := Books(ops);
    && (id in b.seats <==> Held(ops, id))
    && (id in b.seats ==> Confirmed(ops, id) == Some(b.seats[id].confirmedAt))
    && (id in b.seats ==> (b.seats[id].unresolved <==> Unclear(ops, id)))
  }

  /** One operation on the books, as seen by the seat of `id`. */
  lemma SeatNext(b: M.Books, op: M.Op, id: string, ends: bool)
    requires id == "" ==> id !in b.seats
    requires ends <==>
      || (op.Release? && op.id == id)
      || (op.Note? && op.id == id && op.answer.Some? && Absent(op.answer.value))
      || (op.Expire? && op.id == id && op.maxAge > 0.0 && id !in op.live && id in b.seats && op.now - b.seats[id].confirmedAt >= op.maxAge)
    ensures var b' := M.Apply(b, op);
      && (id in b'.seats <==> (op.Add? && op.id == id && id != "") || (id in b.seats && !ends))
      && (id in b'.seats ==>
            var joins := op.Add? && op.id == id;
            && (joins || (op.Touch? && op.id == id) ==> b'.seats[id].confirmedAt == op.now)
            && (!joins && !(op.Touch? && op.id == id) ==> id in b.seats && b'.seats[id].confirmedAt == b.seats[id].confirmedAt)
            && (b'.seats[id].unresolved <==>
                  !joins && ((op.Note? && op.id == id && op.answer.Some? && !Absent(op.answer.value)) || (id in b.seats && b.seats[id].unresolved)))
            && b'.seats[id].lastAttemptAt ==
                  if op.Attempt? && op.id == id then Some(op.now) else if id in b.seats then b.seats[id].lastAttemptAt else None)
  {
    hide M.Bumped;
    match op {
      case Note(_, answer) =>
        if answer.Some? {
          AbsentIff(answer.value);
        }
        hide Absent, M.Evidence;
      case _ =>
    }
  }

  lemma EndsNow(ops: seq<M.Op>, id: string)
    requires ops != [] && Tells(ops[..|ops| - 1], id)
    ensures var n, op, b := |ops| - 1, ops[|ops| - 1], Books(ops[..|ops| - 1]);
      id in b.seats ==> (EndsAt(ops, id, n) <==>
        || (op.Release? && op.id == id)
        || (op.Note? && op.id == id && op.answer.Some? && Absent(op.answer.value))
        || (op.Expire? && op.id == id && op.maxAge > 0.0 && id !in op.live && id in b.seats && op.now - b.seats[id].confirmedAt >= op.maxAge))
  {
    hide Books, Absent;
  }

  lemma {:induction false} SeatTells(ops: seq<M.Op>, id: string)
    ensures Tells(ops, id)
  {
    if ops != [] {
      hide Stands, EndsAt, UnclearSince, M.Apply, Absent;
      var n, front, op := |ops| - 1, ops[..|ops| - 1], ops[|ops| - 1];
      SeatTells(front, id);
      EndsNow(ops, id);
      var b := Books(front);
      var ends :=
        || (op.Release? && op.id == id)
        || (op.Note? && op.id == id && op.answer.Some? && Absent(op.answer.value))
        || (op.Expire? && op.id == id && op.maxAge > 0.0 && id !in op.live && id in b.seats && op.now - b.seats[id].confirmedAt >= op.maxAge);
      SeatNext(b, op, id, ends);
      HeldTells(ops, id, ends);
      UnclearTells(ops, id);
    }
  }

  lemma HeldTells(ops: seq<M.Op>, id: string, ends: bool)
    requires ops != [] && (Held(ops[..|ops| - 1], id) ==> (ends <==> EndsAt(ops, id, |ops| - 1)))
    ensures Held(ops, id) <==>
      || (id != "" && ops[|ops| - 1].Add? && ops[|ops| - 1].id == id)
      || (Held(ops[..|ops| - 1], id) && !ends)
  {
    hide Stands, EndsAt;
    var n, front := |ops| - 1, ops[..|ops| - 1];
    forall k: nat
      ensures Stands(ops, id, k) <==>
        if k == n then id != "" && ops[n].Add? && ops[n].id == id else Stands(front, id, k) && !EndsAt(ops, id, n)
    {
      StandsFront(ops, id, k);
    }
    StandsBefore(front, id);
    assert Stands(ops, id, n) <==> id != "" && ops[n].Add? && ops[n].id == id;
  }

  lemma StandsBefore(ops: seq<M.Op>, id: string)
    ensures forall k: nat :: Stands(ops, id, k) ==> k < |ops|
  {
  }

  lemma UnclearTells(ops: seq<M.Op>, id: string)
    requires ops != []
    ensures var n, op := |ops| - 1, ops[|ops| - 1];
      Unclear(ops, id) <==>
        !(op.Add? && op.id == id)
        && ((op.Note? && op.id == id && op.answer.Some? && !Absent(op.answer.value)) || Unclear(ops[..n], id))
  {
    hide UnclearSince, Absent;
    var n, front := |ops| - 1, ops[..|ops| - 1];
    forall j: nat
      ensures UnclearSince(ops, id, j) <==>
        if j == n then ops[n].Note? && ops[n].id == id && ops[n].answer.Some? && !Absent(ops[n].answer.value)
        else UnclearSince(front, id, j) && !(ops[n].Add? && ops[n].id == id)
    {
      UnclearFront(ops, id, j);
    }
    UnclearBefore(front, id);
    if ops[n].Note? && ops[n].id == id && ops[n].answer.Some? && !Absent(ops[n].answer.value) {
      assert UnclearSince(ops, id, n);
    }
  }

  lemma UnclearBefore(ops: seq<M.Op>, id: string)
    ensures forall j: nat :: UnclearSince(ops, id, j) ==> j < |ops|
  {
  }

  // ---- the seat --------------------------------------------------------------------------------------

  /** A meeting's seat is held if and only if it was joined and nothing has ended it since: no release, no
      answer that proves absence, no deadline without a session. It counts as confirmed since the last join
      or activity, and a departure is unresolved if and only if an answer that proves nothing came and the
      meeting was not joined again since. */
  lemma SeatIs(ops: seq<M.Op>, id: string)
    ensures id in Books(ops).seats <==> exists k: nat :: Stands(ops, id, k)
    ensures id in Books(ops).seats ==> Confirmed(ops, id) == Some(Books(ops).seats[id].confirmedAt)
    ensures id in Books(ops).seats ==> (Books(ops).seats[id].unresolved <==> exists j: nat :: UnclearSince(ops, id, j))
  {
    SeatTells(ops, id);
  }

  lemma StampNext(ops: seq<M.Op>, id: string)
    requires ops != [] && id in Books(ops).seats
    ensures var op, front := ops[|ops| - 1], Books(ops[..|ops| - 1]);
      && (id in front.seats ==> Books(ops).seats[id].lastAttemptAt == if op.Attempt? && op.id == id then Some(op.now) else front.seats[id].lastAttemptAt)
      && (id !in front.seats ==> Books(ops).seats[id].lastAttemptAt.None? && op.Add?)
  {
    hide M.Bumped, M.Evidence;
  }

  /** What stood before a last operation that is no join of another stay still stands, if anything does. */
  lemma StandsOn(ops: seq<M.Op>, id: string)
    requires ops != [] && Held(ops, id)
    ensures forall k: nat :: k < |ops| - 1 ==> (Stands(ops, id, k) <==> Stands(ops[..|ops| - 1], id, k))
    ensures Stands(ops, id, |ops| - 1) ==> ops[|ops| - 1].Add?
  {
    hide EndsAt, Stands;
    var n, front := |ops| - 1, ops[..|ops| - 1];
    forall k: nat
      ensures Stands(ops, id, k) <==>
        if k == n then id != "" && ops[n].Add? && ops[n].id == id else Stands(front, id, k) && !EndsAt(ops, id, n)
    {
      StandsFront(ops, id, k);
    }
    StandsBefore(front, id);
    JoinsEndNothing(ops, id);
  }

  lemma JoinsEndNothing(ops: seq<M.Op>, id: string)
    requires ops != []
    ensures ops[|ops| - 1].Add? ==> !EndsAt(ops, id, |ops| - 1)
  {
  }

  lemma AttemptFront(ops: seq<M.Op>, id: string, j: nat)
    requires ops != [] && Held(ops, id)
    ensures var n, op, front := |ops| - 1, ops[|ops| - 1], ops[..|ops| - 1];
      LastAttempt(ops, id, j) <==>
        if j == n then op.Attempt? && op.id == id && Held(front, id)
        else LastAttempt(front, id, j) && !(op.Attempt? && op.id == id)
  {
    hide Stands;
    var n, front := |ops| - 1, ops[..|ops| - 1];
    StandsOn(ops, id);
    StandsBefore(front, id);
    StandsBefore(ops, id);
    assert forall i :: 0 <= i < n ==> front[i] == ops[i];
    if j == n && Held(front, id) {
      var k: nat :| Stands(front, id, k);
      assert Stands(ops, id, k);
    } else if LastAttempt(front, id, j) {
      var k: nat :| k < j && Stands(front, id, k);
      assert Stands(ops, id, k);
    }
  }

  lemma AttemptBefore(ops: seq<M.Op>, id: string, j: nat)
    requires LastAttempt(ops, id, j)
    ensures j < |ops| && Held(ops, id)
  {
  }

  /** And its last attempt is the last one that was made during the present stay. */
  lemma {:induction false} AttemptIs(ops: seq<M.Op>, id: string)
    requires id in Books(ops).seats
    ensures forall j: nat :: LastAttempt(ops, id, j) ==> ops[j].Attempt? && Books(ops).seats[id].lastAttemptAt == Some(ops[j].now)
    ensures Books(ops).seats[id].lastAttemptAt.Some? ==> exists j: nat :: LastAttempt(ops, id, j)
  {
    SeatTells(ops, id);
    if ops != [] {
      hide LastAttempt, Books;
      var n, front, op := |ops| - 1, ops[..|ops| - 1], ops[|ops| - 1];
      SeatTells(front, id);
      StampNext(ops, id);
      forall j: nat
        ensures LastAttempt(ops, id, j) <==>
          if j == n then op.Attempt? && op.id == id && Held(front, id) else LastAttempt(front, id, j) && !(op.Attempt? && op.id == id)
        ensures LastAttempt(front, id, j) ==> j < n && Held(front, id)
      {
        AttemptFront(ops, id, j);
        if LastAttempt(front, id, j) {
          AttemptBefore(front, id, j);
        }
      }
      if id in Books(front).seats {
        AttemptIs(front, id);
        if op.Attempt? && op.id == id {
          assert LastAttempt(ops, id, n);
        }
      }
    }
  }

  /** What the health counters are told: each answer that proves absence counts under its own evidence. */
  lemma AnswerCounts(b: M.Books, id: string, a: M.Answer)
    requires id in b.seats && Absent(a)
    ensures var b' := M.Apply(b, M.Note(id, Some(a)));
      var evidence :=
        if a.ok then "ok" else if a.feishuCode == Some(121105) then "121105" else if a.feishuCode == Some(120004) then "120004" else "404";
      b' == M.Books(b.seats - {id}, b.released[evidence := (if evidence in b.released then b.released[evidence] else 0) + 1], b.taken)
  {
  }

  /** And so do releases and deadlines. */
  lemma ReleaseCounts(b: M.Books, id: string, evidence: string, maxAge: real, now: real, live: set<string>)
    ensures M.Apply(b, M.Release(id, evidence)) ==
      if id !in b.seats then b
      else M.Books(b.seats - {id}, b.released[evidence := (if evidence in b.released then b.released[evidence] else 0) + 1], b.taken)
    ensures M.Apply(b, M.Expire(id, maxAge, now, live)) ==
      if id !in b.seats || maxAge <= 0.0 || id in live || now - b.seats[id].confirmedAt < maxAge then b
      else M.Books(b.seats - {id}, b.released["ttl" := (if "ttl" in b.released then b.released["ttl"] else 0) + 1], b.taken)
  {
  }
}
