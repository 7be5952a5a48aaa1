/** Serial delivery for one session: a bounded queue and one worker that awaits each handler in turn. */
module SerialDelivery {
  import opened Wrappers

  const REPORT_RESERVE := 32

  /** A queued delivery: the handlers subscribed at the time, and what they are called with. */
  datatype Entry<P> = Entry(handlers: seq<nat>, payload: P)

  /** One handler invocation. */
  datatype Call<P> = Call(handler: nat, payload: P)

  /** What the worker has in hand: the first `next` handlers have been called, the last of them may
      still be running. */
  datatype Work<P> = Work(entry: Entry<P>, next: nat, running: bool)

  /** The invocations an entry asks for, without its first `from` handlers. */
  function CallsOf<P>(e: Entry<P>, from: nat): (calls: seq<Call<P>>)
    requires from <= |e.handlers|
    ensures |calls| == |e.handlers| - from
    ensures forall k :: 0 <= k < |calls| ==> calls[k] == Call(e.handlers[from + k], e.payload)
  {
    seq(|e.handlers| - from, k requires 0 <= k < |e.handlers| - from => Call(e.handlers[from + k], e.payload))
  }

  /** The invocations a list of entries asks for, in order. */
  function Calls<P>(entries: seq<Entry<P>>): seq<Call<P>> {
    if entries == [] then [] else Calls(entries[..|entries| - 1]) + CallsOf(entries[|entries| - 1], 0)
  }

  lemma {:induction false} CallsSplit<P>(e: Entry<P>, rest: seq<Entry<P>>)
    ensures Calls([e] + rest) == CallsOf(e, 0) + Calls(rest)
  {
    var all := [e] + rest;
    if rest == [] {
      assert all[..|all| - 1] == [];
    } else {
      assert all[..|all| - 1] == [e] + rest[..|rest| - 1];
      CallsSplit(e, rest[..|rest| - 1]);
    }
  }

  lemma CallsSnoc<P>(entries: seq<Entry<P>>, e: Entry<P>)
    ensures Calls(entries + [e]) == Calls(entries) + CallsOf(e, 0)
  {
    assert (entries + [e])[..|entries|] == entries;
  }

  lemma CallsNext<P>(e: Entry<P>, from: nat)
    requires from < |e.handlers|
    ensures CallsOf(e, from) == [Call(e.handlers[from], e.payload)] + CallsOf(e, from + 1)
  {
  }

  /** What is left of the work in hand. */
  function Left<P>(w: Option<Work<P>>): seq<Call<P>> {
    if w.Some? && w.value.next <= |w.value.entry.handlers| then CallsOf(w.value.entry, w.value.next) else []
  }

  function Count(marks: seq<bool>, which: bool): nat {
    if marks == [] then 0 else Count(marks[..|marks| - 1], which) + if marks[|marks| - 1] == which then 1 else 0
  }

  lemma {:induction false} CountBoth(marks: seq<bool>)
    ensures Count(marks, true) + Count(marks, false) == |marks|
  {
    if marks != [] {
      CountBoth(marks[..|marks| - 1]);
    }
  }

  lemma CountSnoc(marks: seq<bool>, mark: bool)
    ensures Count(marks + [mark], false) == Count(marks, false) + if mark then 0 else 1
  {
    assert (marks + [mark])[..|marks|] == marks;
  }

  lemma {:induction false} CountTail(marks: seq<bool>, which: bool)
    requires marks != []
    ensures Count(marks[1..], which) == Count(marks, which) - if marks[0] == which then 1 else 0
  {
    if |marks| > 1 {
      var front := marks[..|marks| - 1];
      CountTail(front, which);
      assert marks[1..][..|marks[1..]| - 1] == front[1..];
    }
  }

  function Max(a: int, b: int): int {
    if a < b then b else a
  }

  // ---- the queue as a value ------------------------------------------------------------------------

  /** What a submitter can see of the queue, and everything it ever accepted. */
  datatype Mailbox<P> = Mailbox(maxQueued: int, queue: seq<Entry<P>>, closed: bool, dropped: nat, accepted: seq<Entry<P>>)

  predicate Takes<P>(m: Mailbox<P>, reserved: bool) {
    !m.closed && |m.queue| < m.maxQueued + (if reserved then REPORT_RESERVE else 0)
  }

  /** One submission, and whether it was accepted. Refused after a cancellation and at the ceiling; only
      the latter is a drop. */
  function Posted<P>(m: Mailbox<P>, e: Entry<P>, reserved: bool): (r: (Mailbox<P>, bool)) {
    if Takes(m, reserved) then (m.(queue := m.queue + [e], accepted := m.accepted + [e]), true)
    else (if m.closed then m else m.(dropped := m.dropped + 1), false)
  }

  class SerialDelivery<P> {
    const maxQueued: int
    var queue: seq<Entry<P>>
    var closed: bool
    var dropped: nat
    var worker: bool
    var work: Option<Work<P>>
    /** `asyncio.Queue` counts the entries without a `task_done`. */
    var unfinished: nat

    /** Handler invocations, in order, and those that raised. */
    var called: seq<Call<P>>
    var reported: seq<Call<P>>

    ghost var accepted: seq<Entry<P>>
    ghost var reserves: seq<bool>      // which queued entries used the report reserve
    ghost var cut: nat                 // deliveries a cancellation interrupted

    ghost function View(): Mailbox<P>
      reads this
    {
      Mailbox(maxQueued, queue, closed, dropped, accepted)
    }

    /** Every invocation that was accepted has been made, is being made, or is still to come, in the
        order of acceptance. Activity never fills more of the queue than the ceiling. */
    ghost predicate Valid()
      reads this
    {
      && (work.Some? ==> work.value.next <= |work.value.entry.handlers| && (work.value.running ==> work.value.next > 0))
      && (cut == 0 ==> called + Left(work) + Calls(queue) == Calls(accepted))
      && unfinished == |queue| + cut + (if work.Some? then 1 else 0)
      && (cut > 0 ==> closed) && (work.Some? ==> worker)
      && |reserves| == |queue| && Count(reserves, false) <= Max(maxQueued, 0)
      && |queue| <= Max(maxQueued + REPORT_RESERVE, 0)
    }

    constructor (maxQueued: int)
      ensures Valid() && this.maxQueued == maxQueued && queue == [] && !closed && dropped == 0
      ensures accepted == [] && called == [] && cut == 0
    {
      this.maxQueued := maxQueued;
      queue, closed, dropped, worker, work, unfinished := [], false, 0, false, None, 0;
      called, reported, accepted, reserves, cut := [], [], [], [], 0;
    }

    method Start()
      requires Valid()
      modifies this`worker
      ensures Valid() && worker
    {
      worker := true;
    }

    /** Refused after a cancellation and when the queue is at its ceiling; only the latter is a drop. */
    method Submit(handlers: seq<nat>, payload: P, reserved: bool) returns (ok: bool)
      requires Valid()
      modifies this
      ensures Valid() && called == old(called) && work == old(work) && cut == old(cut)
      ensures (View(), ok) == Posted(old(View()), Entry(handlers, payload), reserved)
      ensures ok <==> !closed && |old(queue)| < maxQueued + (if reserved then 32 else 0)
      ensures queue == old(queue) + (if ok then [Entry(handlers, payload)] else [])
      ensures accepted == old(accepted) + (if ok then [Entry(handlers, payload)] else []) && closed == old(closed)
      ensures dropped == old(dropped) + if ok || closed then 0 else 1
      ensures reserves == if ok then old(reserves) + [reserved] else old(reserves)
    {
      hide Calls, Count, CallsOf;
      if closed {
        return false;
      }
      var ceiling := maxQueued + (if reserved then REPORT_RESERVE else 0);
      if |queue| >= ceiling {
        dropped := dropped + 1;
        return false;
      }
      CountBoth(reserves);
      CountSnoc(reserves, reserved);
      CallsSnoc(queue, Entry(handlers, payload));
      CallsSnoc(accepted, Entry(handlers, payload));
      queue := queue + [Entry(handlers, payload)];
      accepted := accepted + [Entry(handlers, payload)];
      reserves := reserves + [reserved];
      unfinished := unfinished + 1;
      return true;
    }

    /** What the reserve is for: while fewer than 32 reports wait, activity cannot keep a report out. */
    lemma ReportFits()
      requires Valid() && maxQueued >= 0 && Count(reserves, true) < 32
      ensures |queue| < maxQueued + 32
    {
      CountBoth(reserves);
    }

    /** The worker takes the oldest entry. */
    method Take()
      requires Valid() && worker && work.None? && queue != []
      modifies this
      ensures Valid() && work == Some(Work(old(queue)[0], 0, false)) && called == old(called) && cut == old(cut)
      ensures View() == old(View()).(queue := old(queue)[1..])
    {
      hide Calls;
      CallsSplit(queue[0], queue[1..]);
      assert queue == [queue[0]] + queue[1..];
      CountTail(reserves, false);
      work := Some(Work(queue[0], 0, false));
      queue := queue[1..];
      reserves := reserves[1..];
    }

    /** The worker calls the next handler of the entry. It never has two running. */
    method CallHandler()
      requires Valid() && worker && work.Some?
      requires !work.value.running && work.value.next < |work.value.entry.handlers|
      modifies this
      ensures Valid() && queue == old(queue) && accepted == old(accepted) && closed == old(closed) && cut == old(cut)
      ensures var w := old(work).value;
        && work == Some(Work(w.entry, w.next + 1, true))
        && called == old(called) + [Call(w.entry.handlers[w.next], w.entry.payload)]
    {
      hide Calls;
      var w := work.value;
      CallsNext(w.entry, w.next);
      called := called + [Call(w.entry.handlers[w.next], w.entry.payload)];
      work := Some(Work(w.entry, w.next + 1, true));
    }

    /** The handler is done. A failure is reported and stops nothing. */
    method HandlerDone(failed: bool)
      requires Valid() && worker && work.Some? && work.value.running
      modifies this
      ensures Valid() && queue == old(queue) && accepted == old(accepted) && called == old(called)
      ensures closed == old(closed) && cut == old(cut)
      ensures work == Some(old(work).value.(running := false))
      ensures reported == if failed then
        old(reported) + [Call(old(work).value.entry.handlers[old(work).value.next - 1], old(work).value.entry.payload)]
      else old(reported)
    {
      var w := work.value;
      if failed {
        reported := reported + [Call(w.entry.handlers[w.next - 1], w.entry.payload)];
      }
      work := Some(w.(running := false));
    }

    method TaskDone()
      requires Valid() && worker && work.Some?
      requires !work.value.running && work.value.next == |work.value.entry.handlers|
      modifies this
      ensures Valid() && work == None && queue == old(queue) && accepted == old(accepted)
      ensures called == old(called) && closed == old(closed) && cut == old(cut)
    {
      unfinished := unfinished - 1;
      work := None;
    }

    /** The answer of a drain: with no time to wait, whether the queue is empty; else whether
        everything was finished in time. A drain that says yes after waiting found every accepted
        delivery made in full. */
    method Drain(timeout: real, inTime: bool) returns (drained: bool)
      requires Valid()
      requires timeout > 0.0 && inTime ==> unfinished == 0
      ensures timeout <= 0.0 ==> (drained <==> queue == [])
      ensures timeout > 0.0 && drained ==> called == Calls(accepted) && queue == []
    {
      if timeout <= 0.0 {
        return queue == [];
      }
      if inTime {
        assert Calls(queue) == [];
        return true;
      }
      return false;
    }

    /** Nothing is accepted and nothing runs from here on; what was called stays called. */
    method Cancel()
      requires Valid()
      modifies this
      ensures Valid() && View() == old(View()).(closed := true) && !worker && called == old(called)
      ensures work == None && cut == old(cut) + (if old(work).Some? then 1 else 0)
    {
      closed := true;
      if worker {
        cut := cut + if work.Some? then 1 else 0;
        work := None;
      }
      worker := false;
    }
  }
}
