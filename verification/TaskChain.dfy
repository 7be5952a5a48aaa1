/** The serial chain behind `_enqueue`: every task captures the current tail and awaits it before its
    own body starts. Tasks are resumed and finish in any order the event loop likes; no task is
    cancelled. Failures count as finishing, because the successor swallows them. */
module TaskChain {

  datatype Phase = Created | Running | Finished

  datatype Event = Began(task: nat) | Ended(task: nat)

  /** The first `n` bodies, one after the other. */
  ghost function Serial(n: nat): seq<Event> {
    if n == 0 then [] else Serial(n - 1) + [Began(n - 1), Ended(n - 1)]
  }

  class TaskChain {
    /** The task each task awaits; the first one is the no-op task and awaits nothing. */
    var awaits: seq<int>
    var phase: seq<Phase>
    var tail: nat

    /** The body starts and ends that happened, in order. */
    ghost var trace: seq<Event>

    /** Bodies `0..done - 1` have run; body `done` may be running; no later one has started. */
    ghost predicate At(done: nat)
      reads this
    {
      && done <= |phase|
      && (forall k :: 0 <= k < done ==> phase[k] == Finished)
      && (forall k :: done < k < |phase| ==> phase[k] == Created)
      && (done < |phase| ==> phase[done] != Finished)
      && trace == Serial(done) + if done < |phase| && phase[done] == Running then [Began(done)] else []
    }

    ghost predicate Valid()
      reads this
    {
      && |awaits| == |phase| == tail + 1
      && (forall k :: 0 <= k < |awaits| ==> awaits[k] == k - 1)
      && exists done: nat :: At(done)
    }

    constructor ()
      ensures Valid() && trace == [] && tail == 0
    {
      awaits, phase, tail, trace := [-1], [Created], 0, [];
      new;
      assert At(0);
    }

    method Enqueue() returns (task: nat)
      requires Valid()
      modifies this
      ensures Valid() && task == tail == old(tail) + 1 && trace == old(trace)
      ensures phase == old(phase) + [Created] && awaits == old(awaits) + [old(tail)]
    {
      ghost var done: nat :| At(done);
      awaits, phase := awaits + [tail], phase + [Created];
      tail := tail + 1;
      task := tail;
      assert At(done);
    }

    predicate CanBegin(k: nat)
      reads this
    {
      k < |phase| && k < |awaits| && phase[k] == Created
      && (awaits[k] >= 0 ==> awaits[k] < |phase| && phase[awaits[k]] == Finished)
    }

    /** The loop resumes a task whose await has completed; its body starts. */
    method Begin(k: nat)
      requires Valid() && CanBegin(k)
      modifies this`phase, this`trace
      ensures Valid() && phase == old(phase)[k := Running] && trace == old(trace) + [Began(k)]
      // Every earlier body has ended, and no other body is running.
      ensures forall j :: 0 <= j < k ==> phase[j] == Finished
      ensures forall j :: 0 <= j < |phase| && phase[j] == Running ==> j == k
    {
      ghost var done: nat :| At(done);
      assert awaits[k] == k - 1;
      assert k == done;
      phase := phase[k := Running];
      trace := trace + [Began(k)];
      assert At(done);
    }

    method End(k: nat)
      requires Valid() && k < |phase| && phase[k] == Running
      modifies this`phase, this`trace
      ensures Valid() && phase == old(phase)[k := Finished] && trace == old(trace) + [Ended(k)]
    {
      ghost var done: nat :| At(done);
      assert k == done;
      phase := phase[k := Finished];
      trace := trace + [Ended(k)];
      assert Serial(done + 1) == Serial(done) + [Began(done)] + [Ended(done)];
      assert At(done + 1);
    }

    /** The trace is always serial: bodies run one at a time, in the order they were queued. */
    lemma TraceIsSerial() returns (done: nat)
      requires Valid()
      ensures trace == Serial(done) || trace == Serial(done) + [Began(done)]
      ensures forall j :: 0 <= j < |phase| && phase[j] == Running ==> j == done
    {
      done :| At(done);
    }

    /** Nothing gets stuck: unless every task has finished, one is running or can begin. */
    lemma SomeTaskCanMove()
      requires Valid()
      ensures (forall k :: 0 <= k < |phase| ==> phase[k] == Finished)
        || exists k: nat :: k < |phase| && (phase[k] == Running || CanBegin(k))
    {
      var done: nat :| At(done);
      assert done < |phase| ==> phase[done] == Running || CanBegin(done);
    }
  }
}
