/** Per-chat batching and serial execution. */
module ChatPipeline {
  import opened Wrappers
  import opened Messages
  import opened CallHistory

  datatype TextBatchConfig = TextBatchConfig(
    delayMs: int, longThresholdChars: int, longDelayMs: int, maxMessages: int, maxChars: int)

  /** A task of the serial chain. Task `k` awaits task `k - 1`; see `TaskChain`. */
  datatype Work =
    | Flushed(handler: nat, merged: InboundMessage, batch: Batch)
    | Task(task: nat)

  /** A run held back, with the future its caller awaits. */
  datatype DeferredRun = DeferredRun(task: nat, future: nat)

  /** What `run` returns: the task itself, or a future that is completed later. */
  datatype Handle = Enqueued(position: nat) | Promised(future: nat)

  // ---- the queue against the history -----------------------------------------------------------

  /** `w` is the work that the placed entries `es` amount to. */
  ghost predicate Amounts(w: Work, es: seq<Entry>) {
    match w
    case Task(task) => |es| == 1 && es[0].call == Ran(task)
    case Flushed(handler, merged, batch) =>
      && es != [] && AreMessages(es, batch) && Merges(batch, merged)
      && es[0].call.handler == handler
  }

  ghost predicate AreMessages(es: seq<Entry>, batch: Batch) {
    |es| == |batch| && forall i :: 0 <= i < |es| ==> es[i].call.Pushed? && es[i].call.msg == batch[i]
  }

  /** The queue holds exactly the work of the placed entries, in order. */
  ghost predicate Holds(queue: seq<Work>, order: seq<Entry>) {
    if queue == [] then order == []
    else exists k :: 0 <= k <= |order| && HoldsFrom(queue, order, k)
  }

  ghost predicate HoldsFrom(queue: seq<Work>, order: seq<Entry>, k: nat)
    requires queue != [] && k <= |order|
  {
    Amounts(queue[|queue| - 1], order[k..]) && Holds(queue[..|queue| - 1], order[..k])
  }

  lemma HoldsSnoc(queue: seq<Work>, order: seq<Entry>, w: Work, es: seq<Entry>)
    requires Holds(queue, order) && Amounts(w, es)
    ensures Holds(queue + [w], order + es)
  {
    hide Amounts;
    var q, o, k := queue + [w], order + es, |order|;
    assert q[..|q| - 1] == queue && o[..k] == order && o[k..] == es;
    assert HoldsFrom(q, o, k);
  }

  /** The blocked batches hold one message each. */
  ghost predicate AreSingles(es: seq<Entry>, batches: seq<(Batch, nat)>) {
    |es| == |batches| && forall i :: 0 <= i < |es| ==> |batches[i].0| == 1 && es[i].call == Pushed(batches[i].0[0], batches[i].1)
  }

  ghost predicate AreRuns(es: seq<Entry>, runs: seq<DeferredRun>) {
    |es| == |runs| && forall i :: 0 <= i < |es| ==> es[i].call == Ran(runs[i].task)
  }

  /** The run is still held back, its caller gave it up, or it is on the queue and completes the future. */
  ghost predicate PromiseKept(
    d: DeferredRun, runs: seq<DeferredRun>, cancelled: set<nat>, completedBy: map<nat, nat>, queue: seq<Work>)
  {
    d in runs || d.future in cancelled
    || (d.future in completedBy && completedBy[d.future] < |queue| && queue[completedBy[d.future]] == Task(d.task))
  }

  ghost predicate PromisesKept(
    promised: map<nat, nat>, runs: seq<DeferredRun>, cancelled: set<nat>, completedBy: map<nat, nat>,
    queue: seq<Work>, futuresMade: nat)
  {
    && (forall f :: f in promised ==> f < futuresMade)
    && (forall d :: d in runs ==> d.future in promised && promised[d.future] == d.task)
    && forall f :: f in promised ==> PromiseKept(DeferredRun(promised[f], f), runs, cancelled, completedBy, queue)
  }

  lemma PromisesGrow(
    promised: map<nat, nat>, runs: seq<DeferredRun>, cancelled: set<nat>, cancelled': set<nat>,
    completedBy: map<nat, nat>, queue: seq<Work>, queue': seq<Work>, futuresMade: nat)
    requires PromisesKept(promised, runs, cancelled, completedBy, queue, futuresMade)
    requires queue <= queue' && cancelled <= cancelled'
    ensures PromisesKept(promised, runs, cancelled', completedBy, queue', futuresMade)
  {
  }

  lemma PromisesPlace(
    promised: map<nat, nat>, runs: seq<DeferredRun>, cancelled: set<nat>, completedBy: map<nat, nat>,
    queue: seq<Work>, futuresMade: nat)
    requires PromisesKept(promised, runs, cancelled, completedBy, queue, futuresMade) && runs != []
    ensures PromisesKept(promised, runs[1..], cancelled, completedBy[runs[0].future := |queue|], queue + [Task(runs[0].task)], futuresMade)
  {
    var d, queue' := runs[0], queue + [Task(runs[0].task)];
    assert d in runs && runs == [d] + runs[1..];
    forall f | f in promised
      ensures PromiseKept(DeferredRun(promised[f], f), runs[1..], cancelled, completedBy[d.future := |queue|], queue')
    {
      assert PromiseKept(DeferredRun(promised[f], f), runs, cancelled, completedBy, queue);
      assert queue'[|queue|] == Task(d.task);
    }
  }

  lemma PromisesSkip(
    promised: map<nat, nat>, runs: seq<DeferredRun>, cancelled: set<nat>, completedBy: map<nat, nat>,
    queue: seq<Work>, futuresMade: nat)
    requires PromisesKept(promised, runs, cancelled, completedBy, queue, futuresMade)
    requires runs != [] && runs[0].future in cancelled
    ensures PromisesKept(promised, runs[1..], cancelled, completedBy, queue, futuresMade)
  {
    assert runs == [runs[0]] + runs[1..];
    forall f | f in promised
      ensures PromiseKept(DeferredRun(promised[f], f), runs[1..], cancelled, completedBy, queue)
    {
      assert PromiseKept(DeferredRun(promised[f], f), runs, cancelled, completedBy, queue);
    }
  }

  lemma PromisesDefer(
    promised: map<nat, nat>, runs: seq<DeferredRun>, cancelled: set<nat>, completedBy: map<nat, nat>,
    queue: seq<Work>, futuresMade: nat, task: nat)
    requires PromisesKept(promised, runs, cancelled, completedBy, queue, futuresMade)
    ensures PromisesKept(promised[futuresMade := task], runs + [DeferredRun(task, futuresMade)], cancelled, completedBy, queue, futuresMade + 1)
  {
    forall f | f in promised
      ensures PromiseKept(DeferredRun(promised[f], f), runs + [DeferredRun(task, futuresMade)], cancelled, completedBy, queue)
    {
      assert PromiseKept(DeferredRun(promised[f], f), runs, cancelled, completedBy, queue);
    }
  }

  class ChatPipeline {
    const config: TextBatchConfig
    const mergeWhileBusy: bool

    var serialOnly: bool
    var buffer: Batch
    var bufferChars: nat
    var blockedBatches: seq<(Batch, nat)>
    var timer: Option<nat>
    var pendingHandler: Option<nat>
    var blocked: bool
    var deferredRuns: seq<DeferredRun>

    /** The chained tasks, oldest first. `_tail` is the last one. */
    var queue: seq<Work>

    // The event loop as this scope sees it.
    var armed: map<nat, int>         // live timers and their delays in milliseconds
    var timersMade: nat
    var futuresMade: nat
    var cancelledFutures: set<nat>   // futures their callers cancelled
    var completedBy: map<nat, nat>   // the task whose result a released future receives

    ghost var h: History
    ghost var promised: map<nat, nat>   // the futures `run` promised, and the run each stands for

    // ---- invariants ----------------------------------------------------------------------------

    /** The fields agree with the history. */
    ghost predicate Recorded()
      reads this
    {
      && Sound(h)
      && Holds(queue, h.order)
      && |h.waiting| == |buffer| + |blockedBatches|
      && AreMessages(h.waiting[..|buffer|], buffer)
      && AreSingles(h.waiting[|buffer|..], blockedBatches)
      && AreRuns(h.deferred, deferredRuns)
      && bufferChars == TotalChars(buffer)
      && (pendingHandler.Some? <==> buffer != [])
      && (buffer != [] ==> h.waiting[0].call.handler == pendingHandler.value)
      && (forall t :: t in armed ==> t < timersMade)
      && (forall i, j :: 0 <= i < j < |deferredRuns| ==> deferredRuns[i].future < deferredRuns[j].future)
      && (forall i :: 0 <= i < |deferredRuns| ==> deferredRuns[i].future < futuresMade)
      && PromisesKept(promised, deferredRuns, cancelledFutures, completedBy, queue, futuresMade)
    }

    predicate AtCap()
      reads this
    {
      |buffer| >= config.maxMessages || bufferChars >= config.maxChars
    }

    /** Between calls. Nothing is stuck: a run is deferred only behind a message, and unless the scope
        is blocked a buffered message has a live timer and is below both caps. */
    ghost predicate Valid()
      reads this
    {
      && Recorded()
      && (blockedBatches != [] ==> blocked && !mergeWhileBusy)
      && (deferredRuns != [] ==> buffer != [] || blockedBatches != [])
      && (if blocked || buffer == [] then armed == map[]
          else timer.Some? && armed.Keys == {timer.value} && !AtCap() && config.delayMs > 0 && !serialOnly)
    }

    constructor (config: TextBatchConfig, serialOnly: bool, mergeWhileBusy: bool)
      ensures Valid() && h == NO_HISTORY && queue == [] && !blocked
      ensures this.config == config && this.serialOnly == serialOnly && this.mergeWhileBusy == mergeWhileBusy
    {
      hide Sound, TotalChars, Holds, AtCap, AreMessages, AreSingles, AreRuns;
      this.config, this.serialOnly, this.mergeWhileBusy := config, serialOnly, mergeWhileBusy;
      buffer, bufferChars, blockedBatches, timer := [], 0, [], None;
      pendingHandler, blocked, deferredRuns, queue := None, false, [], [];
      armed, timersMade, futuresMade, cancelledFutures, completedBy := map[], 0, 0, {}, map[];
      h, promised := NO_HISTORY, map[];
      NothingYet();
    }

    // ---- internals -----------------------------------------------------------------------------

    method CancelTimer()
      requires Recorded() && (armed == map[] || (timer.Some? && armed.Keys == {timer.value}))
      modifies this`armed, this`timer
      ensures Recorded() && armed == map[]
    {
      hide Holds, Sound, TotalChars, AreMessages, AreSingles, AreRuns, PromisesKept;
      if timer.Some? {
        armed := armed - {timer.value};
      }
      timer := None;
    }

    /** Puts the buffer on the queue as one batch. */
    method PlaceBuffer()
      requires Recorded() && buffer != []
      modifies this`buffer, this`bufferChars, this`pendingHandler, this`queue, this`h
      ensures Recorded() && buffer == [] && h == Flush(old(h), |old(buffer)|)
      ensures |queue| == |old(queue)| + 1 && old(queue) < queue
      ensures var w := queue[|queue| - 1];
        w.Flushed? && w.batch == old(buffer) && Some(w.handler) == old(pendingHandler) && w.batch != [] && Merges(w.batch, w.merged)
    {
      hide Holds, Amounts, Sound, TotalChars, Merges, PromisesKept;
      var batch, handler := buffer, pendingHandler.value;
      buffer, bufferChars, pendingHandler := [], 0, None;
      assert TotalChars([]) == 0 by { NoChars(); }
      var merged := MergeBatch(batch);
      var w := Flushed(handler, merged, batch);
      BatchAmounts(w, h.waiting[..|batch|]);
      HoldsSnoc(queue, h.order, w, h.waiting[..|batch|]);
      FlushSound(h, |batch|);
      h := Flush(h, |batch|);
      PromisesGrow(promised, deferredRuns, cancelledFutures, cancelledFutures, completedBy, queue, queue + [w], futuresMade);
      queue := queue + [w];
    }

    /** The run is queued and its future waits for that task, unless its caller cancelled it. */
    ghost predicate Served(d: DeferredRun)
      reads this
    {
      d.future in cancelledFutures
      || (d.future in completedBy && completedBy[d.future] < |queue| && queue[completedBy[d.future]] == Task(d.task))
    }

    /** Puts the run that was deferred first on the queue and ties its future to the task. */
    method PlaceFirstDeferred()
      requires Recorded() && h.waiting == [] && deferredRuns != []
      modifies this`deferredRuns, this`queue, this`completedBy, this`h
      ensures Recorded() && h == Release(old(h))
      ensures var d := old(deferredRuns)[0];
        && deferredRuns == old(deferredRuns)[1..]
        && queue == old(queue) + [Task(d.task)]
        && completedBy == old(completedBy)[d.future := |old(queue)|]
    {
      hide Holds, Amounts, Sound, TotalChars, Merges, PromisesKept;
      var d := deferredRuns[0];
      TaskAmounts(d.task, h.deferred[0]);
      HoldsSnoc(queue, h.order, Task(d.task), [h.deferred[0]]);
      ReleaseSound(h);
      PromisesPlace(promised, deferredRuns, cancelledFutures, completedBy, queue, futuresMade);
      h := Release(h);
      deferredRuns := deferredRuns[1..];
      completedBy := completedBy[d.future := |queue|];
      queue := queue + [Task(d.task)];
    }

    /** Passes over the run that was deferred first. */
    method SkipFirstDeferred()
      requires Recorded() && deferredRuns != [] && deferredRuns[0].future in cancelledFutures
      modifies this`deferredRuns, this`h
      ensures Recorded() && h == Skip(old(h)) && deferredRuns == old(deferredRuns)[1..]
    {
      hide Holds, Amounts, Sound, TotalChars, Merges, PromisesKept;
      SkipSound(h);
      PromisesSkip(promised, deferredRuns, cancelledFutures, completedBy, queue, futuresMade);
      h := Skip(h);
      deferredRuns := deferredRuns[1..];
    }

    method ReleaseDeferredRuns()
      requires Recorded() && h.waiting == []
      modifies this`deferredRuns, this`queue, this`completedBy, this`h
      ensures Recorded() && deferredRuns == [] && old(queue) <= queue
      ensures h.waiting == [] && h.calls == old(h).calls && h.withdrawn == old(h).withdrawn && old(h).order <= h.order
      ensures h.deferredAt == old(h).deferredAt
      ensures old(deferredRuns) == [] ==> queue == old(queue) && h == old(h)
      ensures forall i :: |old(queue)| <= i < |queue| ==> queue[i].Task?
      // Each released run is on the queue and its future receives the result; a run is passed over
      // only if its caller cancelled it.
      ensures forall i :: 0 <= i < |old(deferredRuns)| ==> Served(old(deferredRuns)[i])
      ensures forall t :: t in h.skipped - old(h).skipped ==>
        GivenUp(t, old(h).deferred, old(deferredRuns), cancelledFutures)
    {
      hide Holds, Amounts, Sound, TotalChars, Merges, PromisesKept;
      ghost var h0 := h;
      var deferred := deferredRuns;
      var i := 0;
      while i < |deferred|
        invariant 0 <= i <= |deferred| && deferredRuns == deferred[i..]
        invariant Recorded() && h.waiting == [] && h.deferred == h0.deferred[i..]
        invariant h.calls == h0.calls && h.withdrawn == h0.withdrawn && h0.order <= h.order && h.deferredAt == h0.deferredAt
        invariant old(queue) <= queue
        invariant i == 0 ==> queue == old(queue) && h == h0
        invariant forall k :: |old(queue)| <= k < |queue| ==> queue[k].Task?
        invariant forall k :: 0 <= k < i ==> Served(deferred[k])
        invariant forall t :: t in h.skipped - h0.skipped ==> GivenUp(t, h0.deferred, deferred, cancelledFutures)
      {
        var d := deferred[i];
        if d.future in cancelledFutures {
          assert h.deferred[0] == h0.deferred[i];
          assert GivenUp(h.deferred[0].ticket, h0.deferred, deferred, cancelledFutures);
          SkipFirstDeferred();
        } else {
          PlaceFirstDeferred();
        }
        i := i + 1;
      }
    }

    /** What every step leaves alone: calls are never rewritten, the queue only grows, no message is
        withdrawn, and a run is given up only if its caller cancelled it. */
    twostate predicate Onward()
      reads this
    {
      && h.calls == old(h.calls) && h.withdrawn == old(h.withdrawn) && h.deferredAt == old(h.deferredAt)
      && old(queue) <= queue && promised == old(promised)
      && forall t :: t in h.skipped - old(h.skipped) ==>
           GivenUp(t, old(h.deferred), old(deferredRuns), cancelledFutures)
    }

    /** The first new task of the queue carries the buffer of the old state as one batch. */
    twostate predicate BufferPlaced()
      reads this
    {
      && |old(queue)| < |queue|
      && var w := queue[|old(queue)|];
         && w.Flushed? && w.batch == old(buffer) && Some(w.handler) == old(pendingHandler)
         && w.batch != [] && Merges(w.batch, w.merged)
    }

    method FlushAsync(releaseDeferred: bool)
      requires Recorded() && (releaseDeferred && buffer != [] ==> blockedBatches == [])
      modifies this`buffer, this`bufferChars, this`pendingHandler, this`queue, this`h,
        this`deferredRuns, this`completedBy
      ensures Recorded() && Onward() && buffer == [] && h.waiting == old(h.waiting)[|old(buffer)|..]
      ensures old(buffer) != [] ==> BufferPlaced()
      ensures if releaseDeferred && blockedBatches == [] then deferredRuns == [] else deferredRuns == old(deferredRuns)
      ensures old(buffer) == [] && (!releaseDeferred || old(deferredRuns) == []) ==> queue == old(queue) && h == old(h)
      ensures !releaseDeferred ==> h.deferred == old(h.deferred) && h.skipped == old(h.skipped)
      ensures !releaseDeferred && old(buffer) != [] ==> |queue| == |old(queue)| + 1
    {
      hide Holds, Amounts, Sound, TotalChars, Merges, PromisesKept;
      if buffer == [] {
        if releaseDeferred && blockedBatches == [] {
          ReleaseDeferredRuns();
        }
        return;
      }
      PlaceBuffer();
      if releaseDeferred {
        ReleaseDeferredRuns();
      }
    }

    method FlushNow()
      requires Recorded() && buffer != [] && blockedBatches == []
      requires armed == map[] || (timer.Some? && armed.Keys == {timer.value})
      modifies this`buffer, this`bufferChars, this`pendingHandler, this`queue, this`h,
        this`deferredRuns, this`completedBy, this`armed, this`timer
      ensures Recorded() && Onward() && BufferPlaced()
      ensures buffer == [] && h.waiting == [] && deferredRuns == [] && armed == map[]
    {
      hide Holds, Amounts, Sound, TotalChars, Merges, AreMessages, AreSingles, AreRuns, PromisesKept;
      CancelTimer();
      FlushAsync(true);
    }

    method PlaceFirstBlocked()
      requires Recorded() && buffer == [] && blockedBatches != []
      modifies this`blockedBatches, this`queue, this`h
      ensures Recorded() && h == Flush(old(h), 1) && blockedBatches == old(blockedBatches)[1..]
      ensures |queue| == |old(queue)| + 1 && queue[..|old(queue)|] == old(queue)
      ensures Carries(queue[|old(queue)|], old(blockedBatches)[0])
    {
      hide Holds, Amounts, Sound, TotalChars, Merges, PromisesKept;
      var (batch, handler) := blockedBatches[0];
      var merged := MergeBatch(batch);
      var w := Flushed(handler, merged, batch);
      assert h.waiting[0..] == h.waiting;
      BatchAmounts(w, h.waiting[..1]);
      HoldsSnoc(queue, h.order, w, h.waiting[..1]);
      FlushSound(h, 1);
      h := Flush(h, 1);
      PromisesGrow(promised, deferredRuns, cancelledFutures, cancelledFutures, completedBy, queue, queue + [w], futuresMade);
      blockedBatches := blockedBatches[1..];
      queue := queue + [w];
    }

    method FlushBlockedBatches()
      requires Recorded() && buffer == []
      modifies this`blockedBatches, this`queue, this`h, this`deferredRuns, this`completedBy
      ensures Recorded() && Onward() && blockedBatches == [] && deferredRuns == [] && h.waiting == []
      ensures BatchesPlaced(queue, |old(queue)|, old(blockedBatches))
    {
      hide Holds, Amounts, Sound, TotalChars, Merges, PromisesKept;
      var batches := blockedBatches;
      var i := 0;
      while i < |batches|
        invariant 0 <= i <= |batches| && blockedBatches == batches[i..]
        invariant Recorded() && h.deferred == old(h.deferred) && h.skipped == old(h.skipped)
        invariant deferredRuns == old(deferredRuns)
        invariant h.calls == old(h.calls) && h.withdrawn == old(h.withdrawn) && h.deferredAt == old(h.deferredAt)
        invariant |queue| == |old(queue)| + i && old(queue) <= queue
        invariant BatchesPlaced(queue, |old(queue)|, batches[..i])
      {
        ghost var q := queue;
        PlaceFirstBlocked();
        assert queue == q + [queue[|q|]];
        PlacedSnoc(q, |old(queue)|, batches[..i], queue[|q|], batches[i]);
        assert batches[..i + 1] == batches[..i] + [batches[i]];
        Extends(old(queue), q, queue);
        i := i + 1;
      }
      assert batches[..i] == batches;
      ghost var q := queue;
      ReleaseDeferredRuns();
      Extends(old(queue), q, queue);
      PlacedExtends(q, queue, |old(queue)|, batches);
    }

    method ScheduleTimer()
      requires Recorded() && buffer != [] && blockedBatches == []
      requires armed == map[] || (timer.Some? && armed.Keys == {timer.value})
      modifies this`buffer, this`bufferChars, this`pendingHandler, this`queue, this`h,
        this`deferredRuns, this`completedBy, this`armed, this`timer, this`timersMade
      ensures Recorded() && Onward()
      ensures config.delayMs <= 0 || serialOnly ==>
        buffer == [] && h.waiting == [] && deferredRuns == [] && armed == map[] && BufferPlaced()
      ensures !(config.delayMs <= 0 || serialOnly) ==>
        && buffer == old(buffer) && h == old(h) && queue == old(queue) && deferredRuns == old(deferredRuns)
        && timer == Some(old(timersMade)) && armed == map[old(timersMade) := if TotalChars(buffer) >= config.longThresholdChars then config.longDelayMs else config.delayMs]
    {
      hide Holds, Amounts, Sound, TotalChars, Merges, PromisesKept;
      if config.delayMs <= 0 || serialOnly {
        FlushNow();
        return;
      }
      var delay := if bufferChars >= config.longThresholdChars then config.longDelayMs else config.delayMs;
      CancelTimer();
      armed := map[timersMade := delay];
      timer := Some(timersMade);
      timersMade := timersMade + 1;
    }

    // ---- the public methods --------------------------------------------------------------------

    /** The message is waiting, and nothing else about the queue changed. */
    twostate predicate Held(call: Call)
      reads this
    {
      h == Wait(old(h), call) && queue == old(queue) && deferredRuns == old(deferredRuns)
    }

    lemma Counts()
      requires Recorded()
      ensures |h.waiting| == |buffer| + |blockedBatches| && |h.deferred| == |deferredRuns| && bufferChars == TotalChars(buffer)
      ensures (pendingHandler.Some? <==> buffer != []) && forall t :: t in armed ==> t < timersMade
    {
      hide Holds, Amounts, Sound, TotalChars, AreMessages, AreSingles, PromisesKept;
    }

    method Push(msg: InboundMessage, handler: nat)
      requires Valid()
      modifies this
      ensures Valid() && blocked == old(blocked) && serialOnly == old(serialOnly)
      ensures cancelledFutures == old(cancelledFutures)
      ensures h.calls == old(h.calls) + [Entry(|old(h.calls)|, Pushed(msg, handler))]
      ensures h.withdrawn == old(h.withdrawn) && old(queue) <= queue && promised == old(promised)
      ensures h.deferredAt == old(h.deferredAt)[|old(h.calls)| := Tickets(old(h.deferred))]
      // While the scope is blocked the message waits, in the buffer or as a batch of its own.
      ensures old(blocked) ==> Held(Pushed(msg, handler))
      ensures old(blocked) ==> if mergeWhileBusy then buffer == old(buffer) + [msg] else blockedBatches == old(blockedBatches) + [([msg], handler)]
      // Otherwise it is flushed with the buffer when a cap is reached or there is no delay; else the
      // timer starts again.
      ensures !old(blocked) && (|old(buffer)| + 1 >= config.maxMessages || TotalChars(old(buffer) + [msg]) >= config.maxChars || config.delayMs <= 0 || serialOnly) ==>
        && h.waiting == [] && deferredRuns == []
        && |old(queue)| < |queue| && queue[|old(queue)|].Flushed? && queue[|old(queue)|].batch == old(buffer) + [msg]
        && Merges(old(buffer) + [msg], queue[|old(queue)|].merged)
      ensures !old(blocked) && |old(buffer)| + 1 < config.maxMessages && TotalChars(old(buffer) + [msg]) < config.maxChars && config.delayMs > 0 && !serialOnly ==>
        && Held(Pushed(msg, handler)) && buffer == old(buffer) + [msg]
        && timer == Some(old(timersMade)) && armed == map[old(timersMade) := if TotalChars(buffer) >= config.longThresholdChars then config.longDelayMs else config.delayMs]
    {
      hide Holds, Amounts, Sound, TotalChars, Merges, AreMessages, AreSingles, AreRuns, PromisesKept;
      if blocked && !mergeWhileBusy {
        HoldBack(msg, handler);
        return;
      }
      Buffer(msg, handler);
      if blocked {
        return;
      }
      if AtCap() {
        FlushNow();
        return;
      }
      ScheduleTimer();
    }

    method Block()
      requires Valid()
      modifies this`blocked, this`armed, this`timer
      ensures Valid() && blocked
    {
      hide Holds, Sound, TotalChars, AreMessages, AreSingles, AreRuns, PromisesKept;
      blocked := true;
      CancelTimer();
    }

    /** Opens the scope. With blocked batches the buffer goes first and each batch becomes a task of its
        own; otherwise the buffer is flushed at a cap, or its timer starts again. */
    method Unblock()
      requires Valid()
      modifies this
      ensures Valid() && !blocked && serialOnly == old(serialOnly) && cancelledFutures == old(cancelledFutures)
      ensures Onward()
      ensures old(blockedBatches) != [] ==>
        && h.waiting == [] && deferredRuns == []
        && (old(buffer) != [] ==> BufferPlaced())
        && BatchesPlaced(queue, |old(queue)| + (if old(buffer) == [] then 0 else 1), old(blockedBatches))
      ensures old(blockedBatches) == [] && old(buffer) != [] && (|old(buffer)| >= config.maxMessages || TotalChars(old(buffer)) >= config.maxChars || config.delayMs <= 0 || serialOnly) ==>
        h.waiting == [] && deferredRuns == [] && BufferPlaced()
      ensures old(blockedBatches) == [] && (old(buffer) == [] || (|old(buffer)| < config.maxMessages && TotalChars(old(buffer)) < config.maxChars && config.delayMs > 0 && !serialOnly)) ==>
        && buffer == old(buffer) && h == old(h) && queue == old(queue)
        && armed == if buffer == [] then map[]
             else map[old(timersMade) := if TotalChars(buffer) >= config.longThresholdChars then config.longDelayMs else config.delayMs]
    {
      hide Holds, Amounts, Sound, TotalChars, Merges, AreMessages, AreSingles, AreRuns, PromisesKept;
      blocked := false;
      if blockedBatches != [] {
        OpenBatches();
        return;
      }
      if buffer != [] {
        if AtCap() {
          FlushNow();
          return;
        }
        ScheduleTimer();
      }
    }

    method OpenBatches()
      requires Recorded() && blockedBatches != [] && armed == map[]
      modifies this`buffer, this`bufferChars, this`pendingHandler, this`queue, this`h,
        this`deferredRuns, this`completedBy, this`armed, this`timer, this`blockedBatches
      ensures Recorded() && Onward() && armed == map[]
      ensures h.waiting == [] && deferredRuns == [] && blockedBatches == [] && buffer == []
      ensures old(buffer) != [] ==> BufferPlaced()
      ensures BatchesPlaced(queue, |old(queue)| + (if old(buffer) == [] then 0 else 1), old(blockedBatches))
    {
      hide Holds, Amounts, Sound, TotalChars, Merges, AreMessages, AreSingles, AreRuns, PromisesKept;
      if buffer != [] {
        CancelTimer();
        FlushAsync(false);
      }
      ghost var q := queue;
      FlushBlockedBatches();
      Extends(old(queue), q, queue);
      assert queue[..|q|] == q;
    }

    /** The queue is what the history says: its batches and tasks, one after the other, are the placed
        calls in order. */
    lemma QueueIsHistory()
      requires Valid()
      ensures Sound(h) && |CallsOn(queue)| == |h.order|
      ensures forall i :: 0 <= i < |h.order| ==>
        match h.order[i].call
        case Pushed(msg, _) => CallsOn(queue)[i] == Piece.Message(msg)
        case Ran(task) => CallsOn(queue)[i] == Piece.Run(task)
    {
      HeldInOrder(queue, h.order);
    }

    /** The rest of the object is what the history says too: the buffer and the blocked batches hold the waiting
        messages in order, the first message's handler is kept for the buffer, and the held-back runs are the
        deferred calls. */
    lemma WaitingIsHistory()
      requires Valid()
      ensures |h.waiting| == |buffer| + |blockedBatches| && |h.deferred| == |deferredRuns|
      ensures forall i :: 0 <= i < |buffer| ==> h.waiting[i].call.Pushed? && h.waiting[i].call.msg == buffer[i]
      ensures forall i :: 0 <= i < |blockedBatches| ==>
        |blockedBatches[i].0| == 1 && h.waiting[|buffer| + i].call == Pushed(blockedBatches[i].0[0], blockedBatches[i].1)
      ensures buffer != [] ==> pendingHandler == Some(h.waiting[0].call.handler)
      ensures forall i :: 0 <= i < |deferredRuns| ==> h.deferred[i].call == Ran(deferredRuns[i].task)
    {
      hide Sound, Holds, TotalChars, PromisesKept;
      assert forall i :: 0 <= i < |buffer| ==> h.waiting[..|buffer|][i] == h.waiting[i];
      assert forall i :: 0 <= i < |blockedBatches| ==> h.waiting[|buffer|..][i] == h.waiting[|buffer| + i];
    }

    /** Every promise is kept: the run is still held back, its caller gave it up, or it is on the queue and
        completes the future. */
    lemma PromiseHolds(future: nat)
      requires Valid() && future in promised
      ensures DeferredRun(promised[future], future) in deferredRuns || future in cancelledFutures
        || (future in completedBy && completedBy[future] < |queue| && queue[completedBy[future]] == Task(promised[future]))
    {
      hide Sound, Holds, AreMessages, AreSingles, AreRuns, TotalChars;
      assert PromiseKept(DeferredRun(promised[future], future), deferredRuns, cancelledFutures, completedBy, queue);
    }

    /** Nothing is stuck: in an open scope whatever waits has a live timer, and runs are held back only behind
        messages. */
    lemma NothingIsStuck()
      requires Valid()
      ensures !blocked && h.waiting != [] ==> timer.Some? && timer.value in armed
      ensures deferredRuns != [] ==> h.waiting != []
    {
      Counts();
      hide Recorded;
      assert !blocked && buffer != [] ==> timer.value in armed.Keys;
    }

    /** Drops every message that is still waiting. Deferred runs are released, since nothing holds
        them back any more. */
    method CancelBuffer()
      requires Valid()
      modifies this
      ensures Valid() && blocked == old(blocked) && serialOnly == old(serialOnly)
      ensures cancelledFutures == old(cancelledFutures) && promised == old(promised)
      ensures h.waiting == [] && deferredRuns == [] && armed == map[]
      ensures h.calls == old(h.calls) && h.withdrawn == old(h.withdrawn) + Tickets(old(h.waiting))
      ensures old(queue) <= queue && forall i :: |old(queue)| <= i < |queue| ==> queue[i].Task?
      ensures forall i :: 0 <= i < |old(deferredRuns)| ==> Served(old(deferredRuns)[i])
    {
      hide Holds, Amounts, Sound, TotalChars, Merges, AreMessages, AreSingles, PromisesKept;
      CancelTimer();
      DropWaiting();
      ReleaseDeferredRuns();
    }

    method DropWaiting()
      requires Recorded()
      modifies this`buffer, this`bufferChars, this`blockedBatches, this`pendingHandler, this`h
      ensures Recorded() && h == Withdraw(old(h)) && buffer == [] && blockedBatches == []
    {
      hide Holds, Amounts, Sound, TotalChars, Merges, PromisesKept;
      WithdrawSound(h);
      h := Withdraw(h);
      buffer, bufferChars, blockedBatches, pendingHandler := [], 0, [], None;
      assert TotalChars([]) == 0 by { NoChars(); }
    }

    method EnableBatching()
      requires Valid()
      modifies this`serialOnly
      ensures Valid() && !serialOnly
    {
      hide Holds, Sound, TotalChars, AreMessages, AreSingles, AreRuns, PromisesKept;
      serialOnly := false;
    }

    /** Chains a task. Behind messages of a blocked scope it is deferred; otherwise waiting messages are
        flushed first and the task is queued last. */
    method Run(task: nat) returns (handle: Handle)
      requires Valid()
      modifies this
      ensures Valid() && blocked == old(blocked) && serialOnly == old(serialOnly)
      ensures cancelledFutures == old(cancelledFutures)
      ensures h.calls == old(h.calls) + [Entry(|old(h.calls)|, Ran(task))]
      ensures h.withdrawn == old(h.withdrawn) && old(queue) <= queue
      ensures old(blocked) && old(h.waiting) != [] ==>
        && handle == Promised(old(futuresMade)) && queue == old(queue)
        && h == Defer(old(h), Ran(task))
        && deferredRuns == old(deferredRuns) + [DeferredRun(task, old(futuresMade))]
        && buffer == old(buffer) && blockedBatches == old(blockedBatches) && armed == old(armed)
        && promised == old(promised)[old(futuresMade) := task]
      ensures !(old(blocked) && old(h.waiting) != []) ==>
        && promised == old(promised)
        && |queue| > 0 && handle == Enqueued(|queue| - 1) && queue[|queue| - 1] == Task(task)
        && h.waiting == [] && deferredRuns == []
        && (old(buffer) != [] ==> |old(queue)| < |queue| - 1 && BufferPlaced())
    {
      hide Recorded, TotalChars;
      Counts();
      if blocked && (buffer != [] || blockedBatches != []) {
        handle := Promise(task);
        return;
      }
      FlushAhead();
      handle := Enqueue(task);
    }

    /** What is buffered goes first. */
    method FlushAhead()
      requires Recorded() && blockedBatches == [] && (deferredRuns != [] ==> buffer != [])
      requires armed == map[] || (timer.Some? && armed.Keys == {timer.value})
      requires buffer == [] ==> armed == map[]
      modifies this`buffer, this`bufferChars, this`pendingHandler, this`queue, this`h,
        this`deferredRuns, this`completedBy, this`armed, this`timer
      ensures Recorded() && Onward() && buffer == [] && h.waiting == [] && deferredRuns == [] && armed == map[]
      ensures if old(buffer) != [] then BufferPlaced() else queue == old(queue)
    {
      hide Recorded, TotalChars;
      Counts();
      if buffer != [] {
        FlushNow();
      }
    }

    /** Holds a run back and promises its result. */
    method Promise(task: nat) returns (handle: Handle)
      requires Recorded()
      modifies this`deferredRuns, this`futuresMade, this`h, this`promised
      ensures Recorded() && handle == Promised(old(futuresMade)) && h == Defer(old(h), Ran(task))
      ensures deferredRuns == old(deferredRuns) + [DeferredRun(task, old(futuresMade))]
      ensures promised == old(promised)[old(futuresMade) := task]
    {
      hide Holds, Amounts, Sound, TotalChars, Merges, AreMessages, AreSingles, PromisesKept;
      DeferSound(h, Ran(task));
      h := Defer(h, Ran(task));
      PromisesDefer(promised, deferredRuns, cancelledFutures, completedBy, queue, futuresMade, task);
      promised := promised[futuresMade := task];
      deferredRuns := deferredRuns + [DeferredRun(task, futuresMade)];
      futuresMade := futuresMade + 1;
      handle := Promised(futuresMade - 1);
    }

    method Enqueue(task: nat) returns (handle: Handle)
      requires Recorded() && h.waiting == [] && deferredRuns == []
      modifies this`queue, this`h
      ensures Recorded() && h == Place(old(h), Ran(task))
      ensures queue == old(queue) + [Task(task)] && handle == Enqueued(|old(queue)|)
    {
      hide Holds, Amounts, Sound, TotalChars, Merges, AreMessages, AreSingles, PromisesKept;
      var e := Entry(|h.calls|, Ran(task));
      TaskAmounts(task, e);
      HoldsSnoc(queue, h.order, Task(task), [e]);
      PlaceSound(h, Ran(task));
      h := Place(h, Ran(task));
      PromisesGrow(promised, deferredRuns, cancelledFutures, cancelledFutures, completedBy, queue, queue + [Task(task)], futuresMade);
      queue := queue + [Task(task)];
      handle := Enqueued(|queue| - 1);
    }

    /** The loop fires a live timer. The handle field keeps the spent handle. */
    method TimerFires(t: nat)
      requires Valid() && t in armed
      modifies this
      ensures Valid() && blocked == old(blocked) && serialOnly == old(serialOnly)
      ensures cancelledFutures == old(cancelledFutures)
      ensures Onward() && h.waiting == [] && deferredRuns == [] && armed == map[] && BufferPlaced()
    {
      hide Holds, Amounts, Sound, TotalChars, Merges, AreMessages, AreSingles, AreRuns, PromisesKept;
      armed := armed - {t};
      FlushAsync(true);
    }

    /** A caller gives up a future that `run` promised. */
    method CancelFuture(future: nat)
      requires Valid()
      modifies this`cancelledFutures
      ensures Valid() && cancelledFutures == old(cancelledFutures) + {future}
    {
      hide Holds, Sound, TotalChars, AreMessages, AreSingles, AreRuns, PromisesKept;
      PromisesGrow(promised, deferredRuns, cancelledFutures, cancelledFutures + {future}, completedBy, queue, queue, futuresMade);
      cancelledFutures := cancelledFutures + {future};
    }

    /** Flushes whatever is left, blocked or not. The caller then waits for the last task. */
    method Dispose()
      requires Valid()
      modifies this
      ensures Valid() && blocked == old(blocked) && Onward()
      ensures h.waiting == [] && deferredRuns == [] && armed == map[]
    {
      hide Holds, Amounts, Sound, TotalChars, Merges, AreMessages, AreSingles, AreRuns, PromisesKept;
      CancelTimer();
      FlushLeft();
    }

    method FlushLeft()
      requires Recorded()
      modifies this`buffer, this`bufferChars, this`pendingHandler, this`queue, this`h,
        this`deferredRuns, this`completedBy, this`blockedBatches
      ensures Recorded() && Onward() && h.waiting == [] && deferredRuns == [] && buffer == [] && blockedBatches == []
    {
      hide Holds, Amounts, Sound, TotalChars, Merges, AreMessages, AreSingles, AreRuns, PromisesKept;
      if buffer != [] {
        FlushAsync(blockedBatches == []);
      }
      if blockedBatches != [] {
        ghost var q := queue;
        FlushBlockedBatches();
        Extends(old(queue), q, queue);
      } else if buffer == [] {
        ghost var q := queue;
        ReleaseDeferredRuns();
        Extends(old(queue), q, queue);
      }
    }

    /** Keeps a message as a batch of its own. */
    method HoldBack(msg: InboundMessage, handler: nat)
      requires Recorded()
      modifies this`blockedBatches, this`h
      ensures Recorded() && h == Wait(old(h), Pushed(msg, handler))
      ensures blockedBatches == old(blockedBatches) + [([msg], handler)]
    {
      hide Holds, Amounts, Sound, TotalChars, Merges, AreMessages, AreRuns, PromisesKept;
      WaitSound(h, Pushed(msg, handler));
      ghost var w := h.waiting;
      h := Wait(h, Pushed(msg, handler));
      assert h.waiting[..|buffer|] == w[..|buffer|];
      assert h.waiting[|buffer|..] == w[|buffer|..] + [h.waiting[|w|]];
      blockedBatches := blockedBatches + [([msg], handler)];
    }

    /** Appends to the buffer. */
    method Buffer(msg: InboundMessage, handler: nat)
      requires Recorded() && blockedBatches == []
      modifies this`buffer, this`bufferChars, this`pendingHandler, this`h
      ensures Recorded() && h == Wait(old(h), Pushed(msg, handler)) && buffer == old(buffer) + [msg]
      ensures bufferChars == TotalChars(buffer)
    {
      hide Holds, Amounts, Sound, Merges, AreMessages, TotalChars, Chars, PromisesKept;
      assert h.waiting[..|buffer|] == h.waiting;
      WaitSound(h, Pushed(msg, handler));
      MessagesSnoc(h.waiting, buffer, Entry(|h.calls|, Pushed(msg, handler)), msg);
      h := Wait(h, Pushed(msg, handler));
      buffer := buffer + [msg];
      assert |h.waiting| == |buffer|;
      assert h.waiting[..|buffer|] == h.waiting && h.waiting[|buffer|..] == [];
      bufferChars := bufferChars + Chars(msg);
      if pendingHandler.None? {
        pendingHandler := Some(handler);
      }
    }
  }

  /** What the worker will go through. */
  datatype Piece = Message(msg: InboundMessage) | Run(task: nat)

  function PiecesOf(w: Work): seq<Piece> {
    match w
    case Task(task) => [Run(task)]
    case Flushed(_, _, batch) => seq(|batch|, i requires 0 <= i < |batch| => Message(batch[i]))
  }

  function CallsOn(queue: seq<Work>): seq<Piece> {
    if queue == [] then [] else CallsOn(queue[..|queue| - 1]) + PiecesOf(queue[|queue| - 1])
  }

  ghost predicate AreCalls(pieces: seq<Piece>, es: seq<Entry>) {
    |pieces| == |es| && forall i :: 0 <= i < |es| ==>
      pieces[i] == match es[i].call case Pushed(msg, _) => Message(msg) case Ran(task) => Run(task)
  }

  lemma AmountsToCalls(w: Work, es: seq<Entry>)
    requires Amounts(w, es)
    ensures AreCalls(PiecesOf(w), es)
  {
    hide Merges;
  }

  lemma CallsConcat(a: seq<Piece>, es: seq<Entry>, b: seq<Piece>, fs: seq<Entry>)
    requires AreCalls(a, es) && AreCalls(b, fs)
    ensures AreCalls(a + b, es + fs)
  {
  }

  lemma {:induction false} HeldInOrder(queue: seq<Work>, order: seq<Entry>)
    requires Holds(queue, order)
    ensures AreCalls(CallsOn(queue), order)
  {
    if queue != [] {
      hide Amounts, AreCalls, PiecesOf;
      var k :| 0 <= k <= |order| && HoldsFrom(queue, order, k);
      HeldInOrder(queue[..|queue| - 1], order[..k]);
      AmountsToCalls(queue[|queue| - 1], order[k..]);
      CallsConcat(CallsOn(queue[..|queue| - 1]), order[..k], PiecesOf(queue[|queue| - 1]), order[k..]);
      assert order[..k] + order[k..] == order;
    } else {
      assert AreCalls([], []);
    }
  }

  ghost predicate Carries(w: Work, b: (Batch, nat)) {
    w.Flushed? && w.batch == b.0 && w.handler == b.1 && w.batch != [] && Merges(w.batch, w.merged)
  }

  /** From position `from` on the queue carries the given batches, one task each. */
  ghost predicate BatchesPlaced(queue: seq<Work>, from: nat, batches: seq<(Batch, nat)>) {
    && from + |batches| <= |queue|
    && forall i :: 0 <= i < |batches| ==> Carries(queue[from..][i], batches[i])
  }

  lemma PlacedSnoc(queue: seq<Work>, from: nat, batches: seq<(Batch, nat)>, w: Work, b: (Batch, nat))
    requires BatchesPlaced(queue, from, batches) && |queue| == from + |batches| && Carries(w, b)
    ensures BatchesPlaced(queue + [w], from, batches + [b])
  {
    assert (queue + [w])[from..] == queue[from..] + [w];
  }

  lemma PlacedExtends(q: seq<Work>, queue: seq<Work>, from: nat, batches: seq<(Batch, nat)>)
    requires BatchesPlaced(q, from, batches) && q <= queue
    ensures BatchesPlaced(queue, from, batches)
  {
    assert q[from..] <= queue[from..];
  }

  lemma MessagesSnoc(es: seq<Entry>, batch: Batch, e: Entry, msg: InboundMessage)
    requires AreMessages(es, batch) && e.call.Pushed? && e.call.msg == msg
    ensures AreMessages(es + [e], batch + [msg])
    ensures TotalChars(batch + [msg]) == TotalChars(batch) + Chars(msg)
  {
    assert (batch + [msg])[..|batch|] == batch;
  }

  lemma Extends(a: seq<Work>, b: seq<Work>, c: seq<Work>)
    requires a <= b <= c
    ensures a <= c
  {
    assert c[..|a|] == b[..|a|];
  }

  ghost predicate GivenUp(ticket: nat, es: seq<Entry>, runs: seq<DeferredRun>, cancelled: set<nat>) {
    exists k :: 0 <= k < |es| && k < |runs| && es[k].ticket == ticket && runs[k].future in cancelled
  }

  lemma NothingYet()
    ensures Sound(NO_HISTORY) && Holds([], NO_HISTORY.order) && TotalChars([]) == 0
    ensures NO_HISTORY.waiting == [] && NO_HISTORY.waiting[..0] == [] && NO_HISTORY.waiting[0..] == []
    ensures AreMessages([], []) && AreSingles([], []) && AreRuns(NO_HISTORY.deferred, [])
  {
  }

  lemma NoChars()
    ensures TotalChars([]) == 0
  {
  }

  lemma BatchAmounts(w: Work, es: seq<Entry>)
    requires w.Flushed? && es != [] && AreMessages(es, w.batch) && w.batch != [] && Merges(w.batch, w.merged)
    requires es[0].call.handler == w.handler
    ensures Amounts(w, es)
  {
  }

  lemma TaskAmounts(task: nat, e: Entry)
    requires e.call == Ran(task)
    ensures Amounts(Task(task), [e])
  {
  }
}
