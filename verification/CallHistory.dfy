/** The history of one chat scope: every `push` and `run` call, and where it is now.

    This is the specification the chat pipeline is proved against. A call gets the next ticket. A
    pushed message is then waiting, placed on the task queue as part of a batch, or withdrawn by a
    buffer cancellation. A run is deferred, placed, or skipped because its caller cancelled its
    future. `Sound` says that nothing is lost, doubled or reordered. */
module CallHistory {
  import opened Messages

  datatype Call = Pushed(msg: InboundMessage, handler: nat) | Ran(task: nat)

  datatype Entry = Entry(ticket: nat, call: Call)

  datatype History = History(
    calls: seq<Entry>,      // every call, oldest first
    order: seq<Entry>,      // the placed ones, in queue order
    waiting: seq<Entry>,    // messages in the buffer, then in blocked batches
    deferred: seq<Entry>,   // runs held back
    withdrawn: set<nat>,    // tickets of cancelled messages
    skipped: set<nat>,      // tickets of runs cancelled by their callers
    deferredAt: map<nat, set<nat>>)   // for each push, the runs that were held back when it came

  const NO_HISTORY := History([], [], [], [], {}, {}, map[])

  /** The pushes (or the runs) of `es` whose tickets are not in `gone`, in order. */
  function Pick(es: seq<Entry>, pushes: bool, gone: set<nat>): seq<Entry> {
    if es == [] then []
    else
      var e := es[|es| - 1];
      Pick(es[..|es| - 1], pushes, gone)
      + if e.call.Pushed? == pushes && e.ticket !in gone then [e] else []
  }

  function Tickets(es: seq<Entry>): set<nat> {
    set e | e in es :: e.ticket
  }

  /** No run stands ahead of a message that was pushed before it. */
  ghost predicate NoOvertaking(es: seq<Entry>) {
    forall p, q :: 0 <= p < q < |es| && es[p].call.Ran? && es[q].call.Pushed? ==> es[p].ticket < es[q].ticket
  }

  /** Tickets are call numbers; messages wait, runs are deferred. */
  ghost predicate Numbered(h: History) {
    && (forall i :: 0 <= i < |h.calls| ==> h.calls[i].ticket == i)
    && (forall i :: 0 <= i < |h.order| ==> h.order[i].ticket < |h.calls|)
    && (forall i :: 0 <= i < |h.waiting| ==> h.waiting[i].ticket < |h.calls| && h.waiting[i].call.Pushed?)
    && (forall i :: 0 <= i < |h.deferred| ==> h.deferred[i].ticket < |h.calls| && h.deferred[i].call.Ran?)
    && (forall t :: t in h.withdrawn ==> t < |h.calls|)
    && (forall t :: t in h.skipped ==> t < |h.calls|)
  }

  /** The placed and the waiting messages are, in this order, the pushes that were not withdrawn;
      the placed and the deferred runs are, in this order, the runs that were not skipped. */
  ghost predicate Accounted(h: History) {
    && Pick(h.order, true, {}) + h.waiting == Pick(h.calls, true, h.withdrawn)
    && Pick(h.order, false, {}) + h.deferred == Pick(h.calls, false, h.skipped)
  }

  function DeferredAt(h: History, push: nat): set<nat> {
    if push in h.deferredAt then h.deferredAt[push] else {}
  }

  /** A run that is held back was held back at every push since. */
  ghost predicate HeldThroughout(h: History) {
    forall i, t :: 0 <= i < |h.deferred| && h.deferred[i].ticket < t < |h.calls| && h.calls[t].call.Pushed? ==>
      h.deferred[i].ticket in DeferredAt(h, t)
  }

  /** A later push stands ahead of a run exactly if the run was held back when the push came. */
  ghost predicate BehindIff(h: History, es: seq<Entry>) {
    forall p, q :: 0 <= p < |es| && 0 <= q < |es| && es[p].call.Ran? && es[q].call.Pushed? && es[p].ticket < es[q].ticket ==>
      (q < p <==> es[p].ticket in DeferredAt(h, es[q].ticket))
  }

  ghost predicate Overtaken(h: History) {
    && HeldThroughout(h) && BehindIff(h, h.order + h.waiting)
    && forall t :: t in h.deferredAt ==> t < |h.calls|
  }

  ghost predicate Sound(h: History) {
    Numbered(h) && Accounted(h) && NoOvertaking(h.order + h.waiting) && Overtaken(h)
  }

  // ---- steps -----------------------------------------------------------------------------------

  function Wait(h: History, call: Call): History {
    var e := Entry(|h.calls|, call);
    h.(calls := h.calls + [e], waiting := h.waiting + [e], deferredAt := h.deferredAt[e.ticket := Tickets(h.deferred)])
  }

  function Defer(h: History, call: Call): History {
    var e := Entry(|h.calls|, call);
    h.(calls := h.calls + [e], deferred := h.deferred + [e])
  }

  function Place(h: History, call: Call): History {
    var e := Entry(|h.calls|, call);
    h.(calls := h.calls + [e], order := h.order + [e])
  }

  /** The `k` messages that wait longest go to the queue. */
  function Flush(h: History, k: nat): History
    requires k <= |h.waiting|
  {
    h.(order := h.order + h.waiting[..k], waiting := h.waiting[k..])
  }

  function Release(h: History): History
    requires h.deferred != []
  {
    h.(order := h.order + [h.deferred[0]], deferred := h.deferred[1..])
  }

  function Skip(h: History): History
    requires h.deferred != []
  {
    h.(deferred := h.deferred[1..], skipped := h.skipped + {h.deferred[0].ticket})
  }

  function Withdraw(h: History): History {
    h.(waiting := [], withdrawn := h.withdrawn + Tickets(h.waiting))
  }

  // ---- every step keeps the history sound ------------------------------------------------------

  lemma PickSnoc(es: seq<Entry>, e: Entry, pushes: bool, gone: set<nat>)
    ensures Pick(es + [e], pushes, gone) ==
      Pick(es, pushes, gone) + if e.call.Pushed? == pushes && e.ticket !in gone then [e] else []
  {
    assert (es + [e])[..|es|] == es;
  }

  lemma {:induction false} PickConcat(a: seq<Entry>, b: seq<Entry>, pushes: bool)
    requires forall i :: 0 <= i < |b| ==> b[i].call.Pushed? == pushes
    ensures Pick(a + b, pushes, {}) == Pick(a, pushes, {}) + b
    ensures Pick(a + b, !pushes, {}) == Pick(a, !pushes, {})
  {
    if b == [] {
      assert a + b == a;
    } else {
      var b', e := b[..|b| - 1], b[|b| - 1];
      PickConcat(a, b', pushes);
      assert a + b == (a + b') + [e];
      PickSnoc(a + b', e, pushes, {});
      PickSnoc(a + b', e, !pushes, {});
      assert (Pick(a, pushes, {}) + b') + [e] == Pick(a, pushes, {}) + b;
    }
  }

  /** Tickets that occur nowhere do not matter. */
  lemma {:induction false} PickIgnores(es: seq<Entry>, pushes: bool, gone: set<nat>, more: set<nat>)
    requires forall i :: 0 <= i < |es| ==> es[i].ticket !in more
    ensures Pick(es, pushes, gone + more) == Pick(es, pushes, gone)
  {
    if es != [] {
      PickIgnores(es[..|es| - 1], pushes, gone, more);
    }
  }

  /** Withdrawing the tickets of a middle part of the picked entries removes exactly that part. */
  lemma {:induction false} PickDrop(es: seq<Entry>, pushes: bool, gone: set<nat>, a: seq<Entry>, b: seq<Entry>, c: seq<Entry>)
    requires forall i :: 0 <= i < |es| ==> es[i].ticket == i
    requires Pick(es, pushes, gone) == a + b + c
    ensures Pick(es, pushes, gone + Tickets(b)) == a + c
  {
    if es == [] {
      assert |a + b + c| == 0;
    } else {
      var es', e := es[..|es| - 1], es[|es| - 1];
      var picked := Pick(es', pushes, gone);
      PickBounded(es', pushes, gone);
      if e.call.Pushed? == pushes && e.ticket !in gone {
        assert picked == (picked + [e])[..|picked|];
        if c != [] {
          var c' := c[..|c| - 1];
          assert c[|c| - 1] == (a + b + c)[|a + b + c| - 1] == e;
          assert (a + b + c)[..|picked|] == a + b + c';
          PickDrop(es', pushes, gone, a, b, c');
          NotAmong(e, a, b, c', |es'|);
          assert a + c == (a + c') + [e];
        } else if b != [] {
          var b' := b[..|b| - 1];
          assert b[|b| - 1] == (a + b + c)[|a + b + c| - 1] == e;
          assert (a + b + c)[..|picked|] == a + b' + [];
          PickDrop(es', pushes, gone, a, b', []);
          assert Tickets(b) == Tickets(b') + {e.ticket};
          assert gone + Tickets(b) == (gone + Tickets(b')) + {e.ticket};
          PickIgnores(es', pushes, gone + Tickets(b'), {e.ticket});
        } else {
          assert gone + Tickets(b) == gone;
          assert a + b + c == a + c;
        }
      } else {
        PickDrop(es', pushes, gone, a, b, c);
      }
    }
  }

  lemma {:induction false} PickBounded(es: seq<Entry>, pushes: bool, gone: set<nat>)
    requires forall i :: 0 <= i < |es| ==> es[i].ticket == i
    ensures forall i :: 0 <= i < |Pick(es, pushes, gone)| ==> Pick(es, pushes, gone)[i].ticket < |es|
  {
    if es != [] {
      PickBounded(es[..|es| - 1], pushes, gone);
    }
  }

  lemma NotAmong(e: Entry, a: seq<Entry>, b: seq<Entry>, c: seq<Entry>, n: nat)
    requires e.ticket == n
    requires forall i :: 0 <= i < |a + b + c| ==> (a + b + c)[i].ticket < n
    ensures e.ticket !in Tickets(b)
  {
    forall i | 0 <= i < |b|
      ensures b[i].ticket < n
    {
      assert (a + b + c)[|a| + i] == b[i];
    }
  }

  lemma OvertakeSnoc(es: seq<Entry>, e: Entry)
    requires NoOvertaking(es)
    requires e.call.Ran? || forall i :: 0 <= i < |es| ==> es[i].ticket < e.ticket
    ensures NoOvertaking(es + [e])
  {
  }

  lemma OvertakePrefix(a: seq<Entry>, b: seq<Entry>)
    requires NoOvertaking(a + b)
    ensures NoOvertaking(a)
  {
    forall p, q | 0 <= p < q < |a| && a[p].call.Ran? && a[q].call.Pushed?
      ensures a[p].ticket < a[q].ticket
    {
      assert (a + b)[p] == a[p] && (a + b)[q] == a[q];
    }
  }

  /** What is placed was called, under its own ticket. */
  lemma PlacedIsCall(h: History, e: Entry)
    requires Numbered(h) && Accounted(h) && (e in h.order || e in h.waiting || e in h.deferred)
    ensures e.ticket < |h.calls| && h.calls[e.ticket] == e
  {
    hide Pick;
    var b := e.call.Pushed?;
    PickHas(h.order, b, {}, e);
    PickHas(h.calls, b, if b then h.withdrawn else h.skipped, e);
    assert forall i :: 0 <= i < |h.waiting| ==> h.waiting[i].call.Pushed?;
    assert forall i :: 0 <= i < |h.deferred| ==> h.deferred[i].call.Ran?;
    assert e in if b then Pick(h.order, true, {}) + h.waiting else Pick(h.order, false, {}) + h.deferred;
  }

  /** A run that is placed is not held back as well. */
  lemma PlacedIsNotDeferred(h: History, e: Entry, i: nat)
    requires Numbered(h) && Accounted(h) && e in h.order && e.call.Ran? && i < |h.deferred|
    ensures h.deferred[i].ticket != e.ticket
  {
    hide Pick;
    PickHas(h.order, false, {}, e);
    PickSorted(h.calls, false, h.skipped);
    var placed := Pick(h.order, false, {});
    var j :| 0 <= j < |placed| && placed[j] == e;
    assert (placed + h.deferred)[j] == e && (placed + h.deferred)[|placed| + i] == h.deferred[i];
  }

  lemma WaitOvertaken(h: History, call: Call)
    requires Numbered(h) && Accounted(h) && Overtaken(h) && call.Pushed?
    ensures Overtaken(Wait(h, call))
  {
    hide Accounted;
    var h', n := Wait(h, call), |h.calls|;
    var es, es' := h.order + h.waiting, h'.order + h'.waiting;
    assert es' == es + [h'.calls[n]];
    forall p, q | 0 <= p < |es'| && 0 <= q < |es'| && es'[p].call.Ran? && es'[q].call.Pushed? && es'[p].ticket < es'[q].ticket
      ensures q < p <==> es'[p].ticket in DeferredAt(h', es'[q].ticket)
    {
      assert es'[p] == es[p] && es[p] in h.order;
      if q == |es| {
        forall i | 0 <= i < |h.deferred|
          ensures h.deferred[i].ticket != es[p].ticket
        {
          PlacedIsNotDeferred(h, es[p], i);
        }
      }
    }
  }

  lemma ReleaseOvertaken(h: History)
    requires Numbered(h) && Accounted(h) && Overtaken(h) && h.waiting == [] && h.deferred != []
    ensures Overtaken(Release(h))
  {
    hide Accounted;
    var h', e := Release(h), h.deferred[0];
    var es, es' := h.order + h.waiting, h'.order + h'.waiting;
    assert es' == es + [e] && es == h.order;
    forall p, q | 0 <= p < |es'| && 0 <= q < |es'| && es'[p].call.Ran? && es'[q].call.Pushed? && es'[p].ticket < es'[q].ticket
      ensures q < p <==> es'[p].ticket in DeferredAt(h', es'[q].ticket)
    {
      assert es'[q] == es[q] && es[q] in h.order;
      if p == |es| {
        PlacedIsCall(h, es[q]);
      }
    }
  }

  lemma SameOvertaken(h: History, h': History)
    requires Overtaken(h) && h'.deferredAt == h.deferredAt && h'.calls == h.calls
    requires h'.order + h'.waiting <= h.order + h.waiting && (h'.deferred == h.deferred || (h.deferred != [] && h'.deferred == h.deferred[1..]))
    ensures Overtaken(h')
  {
    var es, es' := h.order + h.waiting, h'.order + h'.waiting;
    assert forall i :: 0 <= i < |es'| ==> es'[i] == es[i];
  }

  /** A run that comes last stands behind no later push. */
  lemma RanOvertaken(h: History, h': History, call: Call)
    requires Numbered(h) && Overtaken(h) && call.Ran?
    requires h' == Defer(h, call) || (h.waiting == [] && h.deferred == [] && h' == Place(h, call))
    ensures Overtaken(h')
  {
    var n := |h.calls|;
    var es, es' := h.order + h.waiting, h'.order + h'.waiting;
    assert es' == es || es' == es + [h'.calls[n]];
    assert forall i :: 0 <= i < |es| ==> es[i].ticket < n;
  }

  lemma WaitSound(h: History, call: Call)
    requires Sound(h) && call.Pushed?
    ensures Sound(Wait(h, call))
  {
    hide Pick, NoOvertaking, Overtaken;
    WaitOvertaken(h, call);
    var e := Entry(|h.calls|, call);
    PickSnoc(h.calls, e, true, h.withdrawn);
    PickSnoc(h.calls, e, false, h.skipped);
    OvertakeSnoc(h.order + h.waiting, e);
    assert h.order + (h.waiting + [e]) == (h.order + h.waiting) + [e];
    assert Pick(h.order, true, {}) + (h.waiting + [e]) == (Pick(h.order, true, {}) + h.waiting) + [e];
  }

  lemma DeferSound(h: History, call: Call)
    requires Sound(h) && call.Ran?
    ensures Sound(Defer(h, call))
  {
    hide Pick, NoOvertaking, Overtaken;
    RanOvertaken(h, Defer(h, call), call);
    var e := Entry(|h.calls|, call);
    PickSnoc(h.calls, e, true, h.withdrawn);
    PickSnoc(h.calls, e, false, h.skipped);
    assert Pick(h.order, false, {}) + (h.deferred + [e]) == (Pick(h.order, false, {}) + h.deferred) + [e];
  }

  lemma PlaceSound(h: History, call: Call)
    requires Sound(h) && call.Ran? && h.waiting == [] && h.deferred == []
    ensures Sound(Place(h, call))
  {
    hide Pick, NoOvertaking, Overtaken;
    RanOvertaken(h, Place(h, call), call);
    var e := Entry(|h.calls|, call);
    PickSnoc(h.calls, e, true, h.withdrawn);
    PickSnoc(h.calls, e, false, h.skipped);
    PickSnoc(h.order, e, true, {});
    PickSnoc(h.order, e, false, {});
    OvertakeSnoc(h.order + [], e);
    assert h.order + [] == h.order && (h.order + [e]) + [] == h.order + [e];
    assert Pick(h.order, false, {}) + [] == Pick(h.order, false, {});
  }

  lemma FlushSound(h: History, k: nat)
    requires Sound(h) && k <= |h.waiting|
    ensures Sound(Flush(h, k))
  {
    hide Pick, NoOvertaking, Overtaken;
    assert Flush(h, k).order + Flush(h, k).waiting == h.order + h.waiting by { assert h.waiting[..k] + h.waiting[k..] == h.waiting; }
    SameOvertaken(h, Flush(h, k));
    var front, back := h.waiting[..k], h.waiting[k..];
    PickConcat(h.order, front, true);
    assert (h.order + front) + back == h.order + h.waiting;
    var placed := Pick(h.order, true, {});
    assert (placed + front) + back == placed + h.waiting;
  }

  lemma ReleaseSound(h: History)
    requires Sound(h) && h.waiting == [] && h.deferred != []
    ensures Sound(Release(h))
  {
    hide Pick, NoOvertaking, Overtaken;
    ReleaseOvertaken(h);
    var e, rest := h.deferred[0], h.deferred[1..];
    PickSnoc(h.order, e, true, {});
    PickSnoc(h.order, e, false, {});
    OvertakeSnoc(h.order + [], e);
    assert h.order + [] == h.order && (h.order + [e]) + [] == h.order + [e];
    var placed := Pick(h.order, false, {});
    assert (placed + [e]) + rest == placed + h.deferred;
    assert Pick(h.order, true, {}) + [] == Pick(h.order, true, {});
  }

  lemma SkipSound(h: History)
    requires Sound(h) && h.deferred != []
    ensures Sound(Skip(h))
  {
    hide Pick, NoOvertaking, Overtaken;
    SameOvertaken(h, Skip(h));
    var a, d := Pick(h.order, false, {}), h.deferred;
    assert a + d == a + [d[0]] + d[1..];
    PickDrop(h.calls, false, h.skipped, a, [d[0]], d[1..]);
    assert Tickets([d[0]]) == {d[0].ticket};
  }

  lemma WithdrawSound(h: History)
    requires Sound(h)
    ensures Sound(Withdraw(h))
  {
    hide Pick, NoOvertaking, Overtaken;
    assert h.order + [] <= h.order + h.waiting;
    SameOvertaken(h, Withdraw(h));
    var a := Pick(h.order, true, {});
    assert a + h.waiting == a + h.waiting + [];
    PickDrop(h.calls, true, h.withdrawn, a, h.waiting, []);
    OvertakePrefix(h.order, h.waiting);
    assert h.order + [] == h.order;
  }

  // ---- what a sound history means to a caller --------------------------------------------------

  lemma {:induction false} PickHas(es: seq<Entry>, pushes: bool, gone: set<nat>, e: Entry)
    ensures e in Pick(es, pushes, gone) <==> e in es && e.call.Pushed? == pushes && e.ticket !in gone
  {
    if es != [] {
      PickHas(es[..|es| - 1], pushes, gone, e);
      assert es == es[..|es| - 1] + [es[|es| - 1]];
    }
  }

  lemma {:induction false} PickSorted(es: seq<Entry>, pushes: bool, gone: set<nat>)
    requires forall i :: 0 <= i < |es| ==> es[i].ticket == i
    ensures forall i, j :: 0 <= i < j < |Pick(es, pushes, gone)| ==>
      Pick(es, pushes, gone)[i].ticket < Pick(es, pushes, gone)[j].ticket
  {
    if es != [] {
      PickSorted(es[..|es| - 1], pushes, gone);
      PickBounded(es[..|es| - 1], pushes, gone);
    }
  }

  /** A message that was not withdrawn is on the queue or waiting, and only once; a run that was not
      skipped is on the queue or deferred. */
  lemma EachCallAccounted(h: History, t: nat)
    requires Sound(h) && t < |h.calls|
    ensures var e := h.calls[t];
      if e.call.Pushed? then t !in h.withdrawn <==> e in h.order || e in h.waiting
      else t !in h.skipped <==> e in h.order || e in h.deferred
  {
    hide Pick;
    var e := h.calls[t];
    PickHas(h.calls, true, h.withdrawn, e);
    PickHas(h.calls, false, h.skipped, e);
    PickHas(h.order, true, {}, e);
    PickHas(h.order, false, {}, e);
    assert e in Pick(h.calls, true, h.withdrawn) <==> e in Pick(h.order, true, {}) || e in h.waiting;
    assert e in Pick(h.calls, false, h.skipped) <==> e in Pick(h.order, false, {}) || e in h.deferred;
  }

  /** Messages keep their order across the queue and the buffers, and none appears twice. */
  lemma MessagesInOrder(h: History)
    requires Sound(h)
    ensures var ms := Pick(h.order, true, {}) + h.waiting;
      forall i, j :: 0 <= i < j < |ms| ==> ms[i].ticket < ms[j].ticket
    ensures var rs := Pick(h.order, false, {}) + h.deferred;
      forall i, j :: 0 <= i < j < |rs| ==> rs[i].ticket < rs[j].ticket
  {
    PickSorted(h.calls, true, h.withdrawn);
    PickSorted(h.calls, false, h.skipped);
  }

  /** A run that is on the queue has every earlier message ahead of it, unless that message was
      withdrawn. */
  lemma RunFollowsEarlierMessages(h: History, t: nat, p: nat)
    requires Sound(h) && p < |h.order| && h.order[p].call.Ran?
    requires t < h.order[p].ticket && h.calls[t].call.Pushed? && t !in h.withdrawn
    ensures h.calls[t] in h.order[..p]
  {
    hide Pick;
    var e := h.calls[t];
    EachCallAccounted(h, t);
    var all := h.order + h.waiting;
    assert e in all;
    var q :| 0 <= q < |all| && all[q] == e;
    assert all[p] == h.order[p];
    assert q < p;
    assert h.order[..p][q] == e;
  }

  /** A placed run stands behind a later push if and only if it was still held back when the push came.
      (Whether a run is held back is decided by the call: it is when the scope is blocked and something
      waits.) */
  lemma BehindLaterPushIff(h: History, p: nat, q: nat)
    requires Sound(h) && p < |h.order| && q < |h.order|
    requires h.order[p].call.Ran? && h.order[q].call.Pushed? && h.order[p].ticket < h.order[q].ticket
    ensures q < p <==> h.order[p].ticket in DeferredAt(h, h.order[q].ticket)
  {
    var es := h.order + h.waiting;
    assert es[p] == h.order[p] && es[q] == h.order[q];
  }

  /** It happens: a message waits, a run is held back behind it, another message comes, and the scope is
      opened. The second message goes ahead of the run. */
  lemma LaterPushOvertakes(a: InboundMessage, b: InboundMessage, handler: nat, task: nat)
    ensures var h := Release(Flush(Wait(Defer(Wait(NO_HISTORY, Pushed(a, handler)), Ran(task)), Pushed(b, handler)), 2));
      && Sound(h) && h.calls == [Entry(0, Pushed(a, handler)), Entry(1, Ran(task)), Entry(2, Pushed(b, handler))]
      && h.order == [h.calls[0], h.calls[2], h.calls[1]] && DeferredAt(h, 2) == {1}
  {
    hide Sound;
    assert Sound(NO_HISTORY) by { NothingSound(); }
    var h1 := Wait(NO_HISTORY, Pushed(a, handler));
    WaitSound(NO_HISTORY, Pushed(a, handler));
    DeferSound(h1, Ran(task));
    var h2 := Defer(h1, Ran(task));
    WaitSound(h2, Pushed(b, handler));
    var h3 := Wait(h2, Pushed(b, handler));
    FlushSound(h3, 2);
    ReleaseSound(Flush(h3, 2));
  }

  lemma NothingSound()
    ensures Sound(NO_HISTORY)
  {
  }
}
