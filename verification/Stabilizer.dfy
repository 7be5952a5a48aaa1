/** Transcript settling: a sentence is delivered once it has stopped changing. */
module Stabilizer {
  import opened Wrappers
  import opened OrderedDict

  const MAX_PENDING: nat := 256

  // ---- the specification: offers and what became of them -------------------------------------------

  /** Offers are numbered in call order; `offered[t]` is the sentence of offer `t`. `emitted` lists the
      delivered offers in delivery order, `held` the buffered one of each sentence. */
  datatype Log = Log(offered: seq<string>, emitted: seq<nat>, held: map<string, nat>)

  ghost predicate Superseded(l: Log, t: nat)
    requires t < |l.offered|
  {
    exists u :: t < u < |l.offered| && l.offered[u] == l.offered[t]
  }

  ghost predicate Settled(l: Log, t: nat)
    requires t < |l.offered|
  {
    t in l.emitted || (l.offered[t] in l.held && l.held[l.offered[t]] == t) || Superseded(l, t)
  }

  /** Revisions of a sentence come out in order and none comes out twice; the buffered one is the latest
      and not out yet; every offer is out, buffered, or superseded by a later one of its sentence. */
  ghost predicate Sound(l: Log) {
    && (forall i :: 0 <= i < |l.emitted| ==> l.emitted[i] < |l.offered|)
    && (forall i, j :: 0 <= i < j < |l.emitted| && l.offered[l.emitted[i]] == l.offered[l.emitted[j]] ==>
         l.emitted[i] < l.emitted[j])
    && (forall s :: s in l.held ==> l.held[s] < |l.offered| && l.offered[l.held[s]] == s && !Superseded(l, l.held[s]))
    && (forall s, i :: s in l.held && 0 <= i < |l.emitted| && l.offered[l.emitted[i]] == s ==> l.emitted[i] < l.held[s])
    && forall t :: 0 <= t < |l.offered| ==> Settled(l, t)
  }

  function DeliverNow(l: Log, s: string): Log {
    l.(offered := l.offered + [s], emitted := l.emitted + [|l.offered|])
  }

  function Hold(l: Log, s: string): Log {
    l.(offered := l.offered + [s], held := l.held[s := |l.offered|])
  }

  function Deliver(l: Log, s: string): Log
    requires s in l.held
  {
    l.(emitted := l.emitted + [l.held[s]], held := l.held - {s})
  }

  lemma OfferGrows(l: Log, l': Log, s: string)
    requires l'.offered == l.offered + [s]
    ensures forall t :: 0 <= t < |l.offered| && Superseded(l, t) ==> Superseded(l', t)
    ensures forall t :: 0 <= t < |l.offered| && !Superseded(l, t) && l.offered[t] != s ==> !Superseded(l', t)
    ensures forall t :: 0 <= t < |l.offered| && l.offered[t] == s ==> Superseded(l', t)
  {
    forall t | 0 <= t < |l.offered| && Superseded(l, t)
      ensures Superseded(l', t)
    {
      var u :| t < u < |l.offered| && l.offered[u] == l.offered[t];
      assert l'.offered[u] == l'.offered[t];
    }
    forall t | 0 <= t < |l.offered| && l.offered[t] == s
      ensures Superseded(l', t)
    {
      assert l'.offered[|l.offered|] == l'.offered[t];
    }
  }

  lemma DeliverNowSound(l: Log, s: string)
    requires Sound(l) && s !in l.held
    ensures Sound(DeliverNow(l, s))
  {
    hide Superseded;
    var l' := DeliverNow(l, s);
    OfferGrows(l, l', s);
    assert forall i :: 0 <= i < |l.emitted| ==> l'.emitted[i] == l.emitted[i];
    assert l'.emitted[|l.emitted|] == |l.offered|;
    forall t | 0 <= t < |l'.offered|
      ensures Settled(l', t)
    {
      if t < |l.offered| {
        assert Settled(l, t);
      }
    }
  }

  lemma HoldSound(l: Log, s: string)
    requires Sound(l)
    ensures Sound(Hold(l, s))
  {
    var l' := Hold(l, s);
    OfferGrows(l, l', s);
    forall t | 0 <= t < |l'.offered|
      ensures Settled(l', t)
    {
      if t < |l.offered| {
        assert Settled(l, t);
      }
    }
  }

  lemma DeliverSound(l: Log, s: string)
    requires Sound(l) && s in l.held
    ensures Sound(Deliver(l, s))
  {
    var l' := Deliver(l, s);
    assert forall i :: 0 <= i < |l.emitted| ==> l'.emitted[i] == l.emitted[i];
    assert l'.emitted[|l.emitted|] == l.held[s];
    forall t | 0 <= t < |l'.offered|
      ensures Settled(l', t)
    {
      assert Settled(l, t);
      assert Superseded(l, t) ==> Superseded(l', t);
    }
  }

  /** With nothing buffered, the last revision of every sentence is out, exactly once. */
  lemma LastRevisionIsOut(l: Log, t: nat)
    requires Sound(l) && l.held == map[] && t < |l.offered| && !Superseded(l, t)
    ensures exists i :: 0 <= i < |l.emitted| && l.emitted[i] == t
    ensures forall i, j :: 0 <= i < j < |l.emitted| ==> l.emitted[i] != l.emitted[j]
  {
    assert Settled(l, t);
  }

  // ---- the buffer as a value -----------------------------------------------------------------------

  datatype Transcript = Transcript(sentenceId: string, text: string)

  /** What is buffered, oldest sentence first; every offer; what was delivered, in order; and the log. */
  datatype Buffer = Buffer(
    window: real, pending: ODict<Transcript>, offers: seq<Transcript>, delivered: seq<Transcript>, log: Log)

  function NewBuffer(window: real): Buffer {
    Buffer(window, Empty(), [], [], Log([], [], map[]))
  }

  ghost predicate Describes(l: Log, offers: seq<Transcript>, delivered: seq<Transcript>, pending: ODict<Transcript>) {
    && (forall s :: s in l.held <==> s in pending.vals)
    && |offers| == |l.offered| && |delivered| == |l.emitted|
    && (forall t :: 0 <= t < |offers| ==> offers[t].sentenceId == l.offered[t])
    && (forall i :: 0 <= i < |delivered| ==> l.emitted[i] < |offers| && delivered[i] == offers[l.emitted[i]])
    && (forall s :: s in pending.vals ==> l.held[s] < |offers| && pending.vals[s] == offers[l.held[s]])
  }

  ghost predicate Good(b: Buffer) {
    && OrderedDict.Valid(b.pending) && |b.pending.keys| <= MAX_PENDING
    && Sound(b.log) && Describes(b.log, b.offers, b.delivered, b.pending)
    && (b.window <= 0.0 ==> b.pending.keys == []) && "" !in b.pending.vals
  }

  predicate AtOnce(b: Buffer, e: Transcript) {
    b.window <= 0.0 || e.sentenceId == ""
  }

  /** The buffered sentence goes out. */
  function Out(b: Buffer, s: string): (r: Buffer)
    requires Good(b) && s in b.pending.vals
    ensures Good(r)
  {
    OutGood(b, s);
    b.(pending := Pop(b.pending, s), delivered := b.delivered + [b.pending.vals[s]], log := Deliver(b.log, s))
  }

  function Replaced(b: Buffer, e: Transcript): (r: Buffer)
    requires Good(b) && !AtOnce(b, e)
    requires e.sentenceId in b.pending.vals || |b.pending.keys| < MAX_PENDING
    ensures Good(r)
  {
    ReplacedGood(b, e);
    b.(pending := PutLast(b.pending, e.sentenceId, e), offers := b.offers + [e], log := Hold(b.log, e.sentenceId))
  }

  /** Makes room for one more sentence, by delivering the oldest one early. */
  function Roomy(b: Buffer, s: string): (r: Buffer)
    requires Good(b)
    ensures Good(r) && r.window == b.window && (s in r.pending.vals || |r.pending.keys| < MAX_PENDING)
  {
    if s in b.pending.vals || |b.pending.keys| < MAX_PENDING then b
    else
      assert b.pending.keys[0] in b.pending.keys;
      PopIsPopFirst(b.pending);
      Out(b, b.pending.keys[0])
  }

  /** What one offer makes of the buffer. */
  function Offered(b: Buffer, e: Transcript): (r: Buffer)
    requires Good(b)
    ensures Good(r)
  {
    if AtOnce(b, e) then
      NowGood(b, e);
      b.(offers := b.offers + [e], delivered := b.delivered + [e], log := DeliverNow(b.log, e.sentenceId))
    else Replaced(Roomy(b, e.sentenceId), e)
  }

  function Fired(b: Buffer, s: string): (r: Buffer)
    requires Good(b)
    ensures Good(r)
  {
    if s in b.pending.vals then Out(b, s) else b
  }

  /** Everything goes out, oldest first. */
  function Flushed(b: Buffer): (r: Buffer)
    requires Good(b)
    ensures Good(r)
    decreases |b.pending.keys|
  {
    if b.pending.keys == [] then b
    else
      assert b.pending.keys[0] in b.pending.keys;
      PopIsPopFirst(b.pending);
      Flushed(Out(b, b.pending.keys[0]))
  }

  lemma OutGood(b: Buffer, s: string)
    requires Good(b) && s in b.pending.vals
    ensures s in b.log.held
    ensures Good(b.(pending := Pop(b.pending, s), delivered := b.delivered + [b.pending.vals[s]], log := Deliver(b.log, s)))
  {
    hide Sound, Without, OrderedDict.Valid;
    PopValid(b.pending, s);
    DescribesDeliver(b.log, b.offers, b.delivered, b.pending, s);
    DeliverSound(b.log, s);
  }

  lemma ReplacedGood(b: Buffer, e: Transcript)
    requires Good(b) && !AtOnce(b, e)
    requires e.sentenceId in b.pending.vals || |b.pending.keys| < MAX_PENDING
    ensures Good(b.(pending := PutLast(b.pending, e.sentenceId, e), offers := b.offers + [e], log := Hold(b.log, e.sentenceId)))
  {
    hide Sound, Without, Describes, Distinct;
    WithoutIs(b.pending.keys, e.sentenceId);
    PutLastValid(b.pending, e.sentenceId, e);
    DescribesHold(b.log, b.offers, b.delivered, b.pending, e);
    HoldSound(b.log, e.sentenceId);
  }

  lemma NowGood(b: Buffer, e: Transcript)
    requires Good(b) && AtOnce(b, e)
    ensures Good(b.(offers := b.offers + [e], delivered := b.delivered + [e], log := DeliverNow(b.log, e.sentenceId)))
  {
    hide Sound, Without, Distinct;
    assert e.sentenceId !in b.log.held;
    DeliverNowSound(b.log, e.sentenceId);
    DescribesNow(b.log, b.offers, b.delivered, b.pending, e);
  }

  lemma DescribesDeliver(l: Log, offers: seq<Transcript>, delivered: seq<Transcript>, pending: ODict<Transcript>, s: string)
    requires Describes(l, offers, delivered, pending) && s in pending.vals
    ensures s in l.held && Describes(Deliver(l, s), offers, delivered + [pending.vals[s]], Pop(pending, s))
  {
    hide Without;
  }

  lemma DescribesHold(l: Log, offers: seq<Transcript>, delivered: seq<Transcript>, pending: ODict<Transcript>, e: Transcript)
    requires Describes(l, offers, delivered, pending)
    ensures Describes(Hold(l, e.sentenceId), offers + [e], delivered, PutLast(pending, e.sentenceId, e))
  {
    hide Without;
  }

  lemma DescribesNow(l: Log, offers: seq<Transcript>, delivered: seq<Transcript>, pending: ODict<Transcript>, e: Transcript)
    requires Describes(l, offers, delivered, pending)
    ensures Describes(DeliverNow(l, e.sentenceId), offers + [e], delivered + [e], pending)
  {
  }

  lemma NewIsGood(window: real)
    ensures Good(NewBuffer(window))
  {
  }

  lemma PopIsPopFirst<V>(pending: ODict<V>)
    requires OrderedDict.Valid(pending) && pending.keys != []
    ensures Pop(pending, pending.keys[0]) == PopFirst(pending)
  {
    WithoutIs(pending.keys[1..], pending.keys[0]);
  }

  /** A flush delivers the buffered sentences in order, after what was delivered before, and leaves the
      last revision of every sentence ever offered delivered exactly once. */
  lemma {:induction false} FlushedIs(b: Buffer)
    requires Good(b)
    ensures var r := Flushed(b);
      && r.pending == Empty() && r.offers == b.offers && r.window == b.window
      && (forall k :: k in b.pending.keys ==> k in b.pending.vals)
      && r.delivered == b.delivered + Values(b.pending.keys, b.pending.vals)
      && forall t :: 0 <= t < |r.offers| && !Superseded(r.log, t) ==> t in r.log.emitted && r.offers[t] in r.delivered
    decreases |b.pending.keys|
  {
    hide Good, Sound, Superseded, Out;
    if b.pending.keys == [] {
      NothingLeft(b);
    } else {
      var first := b.pending.keys[0];
      FirstOut(b);
      FlushedIs(Out(b, first));
      ValuesFirst(b.pending.keys, b.pending.vals, Out(b, first).pending.vals);
    }
  }

  lemma NothingLeft(b: Buffer)
    requires Good(b) && b.pending.keys == []
    ensures b.pending == Empty() && Flushed(b) == b
    ensures forall t :: 0 <= t < |b.offers| && !Superseded(b.log, t) ==> t in b.log.emitted && b.offers[t] in b.delivered
  {
    hide Sound, Superseded;
    assert b.pending.vals.Keys == {};
    assert b.log.held == map[];
    forall t | 0 <= t < |b.offers| && !Superseded(b.log, t)
      ensures t in b.log.emitted && b.offers[t] in b.delivered
    {
      LastRevisionIsOut(b.log, t);
      var i :| 0 <= i < |b.log.emitted| && b.log.emitted[i] == t;
      assert b.delivered[i] == b.offers[t];
    }
  }

  lemma FirstOut(b: Buffer)
    requires Good(b) && b.pending.keys != []
    ensures var first := b.pending.keys[0];
      && first in b.pending.vals && Distinct(b.pending.keys) && (forall k :: k in b.pending.keys ==> k in b.pending.vals)
      && Flushed(b) == Flushed(Out(b, first))
      && var next := Out(b, first);
         && next.pending == ODict(b.pending.keys[1..], b.pending.vals - {first})
         && next.delivered == b.delivered + [b.pending.vals[first]]
         && next.offers == b.offers && next.window == b.window
  {
    hide Sound, Describes, Without;
    assert b.pending.keys[0] in b.pending.keys;
    PopIsPopFirst(b.pending);
  }

  function Values(keys: seq<string>, vals: map<string, Transcript>): seq<Transcript>
    requires forall k :: k in keys ==> k in vals
  {
    seq(|keys|, k requires 0 <= k < |keys| => vals[keys[k]])
  }

  lemma ValuesFirst(keys: seq<string>, vals: map<string, Transcript>, rest: map<string, Transcript>)
    requires keys != [] && Distinct(keys) && (forall k :: k in keys ==> k in vals) && rest == vals - {keys[0]}
    ensures forall k :: k in keys[1..] ==> k in rest
    ensures Values(keys, vals) == [vals[keys[0]]] + Values(keys[1..], rest)
  {
  }

  // ---- the stabilizer ------------------------------------------------------------------------------

  datatype Pending = Pending(event: Transcript, handle: nat)

  /** The buffer without the timer handles. */
  function Events(pending: ODict<Pending>): ODict<Transcript> {
    ODict(pending.keys, map s | s in pending.vals :: pending.vals[s].event)
  }

  /** Buffered sentences and live timers correspond one to one. */
  ghost predicate Timed(pending: ODict<Pending>, armed: map<nat, string>, timersMade: nat) {
    && (forall s :: s in pending.vals ==> pending.vals[s].handle in armed && armed[pending.vals[s].handle] == s)
    && (forall t :: t in armed ==> t < timersMade && armed[t] in pending.vals && pending.vals[armed[t]].handle == t)
  }

  lemma NoTimers(pending: ODict<Pending>, armed: map<nat, string>, n: nat)
    requires Timed(pending, armed, n) && pending.vals == map[]
    ensures armed == map[]
  {
    forall t: nat
      ensures t !in armed
    {
    }
  }

  lemma TimedPop(pending: ODict<Pending>, armed: map<nat, string>, n: nat, s: string)
    requires Timed(pending, armed, n) && s in pending.vals
    ensures Timed(Pop(pending, s), armed - {pending.vals[s].handle}, n)
    ensures Events(Pop(pending, s)) == Pop(Events(pending), s)
  {
    hide Without;
  }

  lemma TimedPut(pending: ODict<Pending>, armed: map<nat, string>, n: nat, s: string, e: Transcript)
    requires Timed(pending, armed, n) && s !in pending.vals
    ensures Timed(PutLast(pending, s, Pending(e, n)), armed[n := s], n + 1)
    ensures Events(PutLast(pending, s, Pending(e, n))) == PutLast(Events(pending), s, e)
  {
    hide Without;
  }

  /** Putting a key last forgets whether it was there before. */
  lemma PutAfterPop<V>(pending: ODict<V>, s: string, p: V)
    ensures PutLast(Pop(pending, s), s, p) == PutLast(pending, s, p)
  {
    WithoutIs(pending.keys, s);
    WithoutIs(Without(pending.keys, s), s);
  }

  class TranscriptStabilizer {
    const window: real
    var pending: ODict<Pending>

    // The event loop: live timers, and the sentence each settles.
    var armed: map<nat, string>
    var timersMade: nat

    /** What was delivered, in order. */
    var delivered: seq<Transcript>

    ghost var offers: seq<Transcript>
    ghost var log: Log

    ghost function View(): Buffer
      reads this
    {
      Buffer(window, Events(pending), offers, delivered, log)
    }

    ghost predicate Valid()
      reads this
    {
      Good(View()) && Timed(pending, armed, timersMade)
    }

    constructor (window: real)
      ensures Valid() && View() == NewBuffer(window)
    {
      NewIsGood(window);
      this.window := window;
      pending, armed, timersMade, delivered := Empty(), map[], 0, [];
      offers, log := [], Log([], [], map[]);
    }

    /** Delivers at once, or keeps the event until its sentence settles. A full buffer delivers its
        oldest sentence early. */
    method Offer(event: Transcript)
      requires Valid()
      modifies this
      ensures Valid() && View() == Offered(old(View()), event)
      ensures window <= 0.0 || event.sentenceId == "" ==>
        delivered == old(delivered) + [event] && pending == old(pending) && armed == old(armed)
      // Otherwise it is held as the newest revision of its sentence, with a timer of its own, and nothing
      // goes out unless 256 other sentences are held, when the oldest of them does.
      ensures window > 0.0 && event.sentenceId != "" ==>
        && event.sentenceId in pending.vals && pending.vals[event.sentenceId].event == event
        && old(timersMade) in armed && armed[old(timersMade)] == event.sentenceId
        && var full := event.sentenceId !in old(pending).vals && |old(pending).keys| >= 256;
           && (full ==> old(pending).keys != [] && old(pending).keys[0] in old(pending).vals)
           && delivered == (if full then old(delivered) + [old(pending).vals[old(pending).keys[0]].event] else old(delivered))
           && (forall s :: s != event.sentenceId ==>
                 (s in pending.vals <==> s in old(pending).vals && !(full && s == old(pending).keys[0])))
           && forall s :: s != event.sentenceId && s in pending.vals ==> pending.vals[s] == old(pending).vals[s]
    {
      hide Good, Timed, Without, Events;
      if window <= 0.0 || event.sentenceId == "" {
        offers := offers + [event];
        delivered := delivered + [event];
        log := DeliverNow(log, event.sentenceId);
        assert View() == Offered(old(View()), event);
        return;
      }
      var s := event.sentenceId;
      EventsHas();
      if s !in pending.vals && |pending.keys| >= MAX_PENDING {
        FlushOldest();
      }
      assert View() == Roomy(old(View()), s);
      EventsHas();
      ghost var held := pending;
      Replace(event);
      assert pending == PutLast(held, s, Pending(event, old(timersMade)));
    }

    lemma EventsHas()
      ensures Events(pending).keys == pending.keys
      ensures forall s :: s in pending.vals <==> s in Events(pending).vals
      ensures forall s :: s in pending.vals ==> pending.vals[s].event == Events(pending).vals[s]
    {
    }

    lemma FirstIsPending()
      requires Valid() && pending.keys != []
      ensures pending.keys[0] in pending.vals && Pop(pending, pending.keys[0]) == PopFirst(pending)
    {
      hide Sound, Describes, Timed;
      EventsHas();
      assert pending.keys[0] in Events(pending).keys;
      WithoutIs(pending.keys[1..], pending.keys[0]);
    }

    /** Cancels the timer of the sentence, if any, and starts a new one with the new revision. */
    method Replace(event: Transcript)
      requires Valid() && !AtOnce(View(), event)
      requires event.sentenceId in pending.vals || |pending.keys| < MAX_PENDING
      modifies this
      ensures Valid() && (event.sentenceId in old(View()).pending.vals || |old(View()).pending.keys| < MAX_PENDING)
      ensures View() == Replaced(old(View()), event) && old(timersMade) in armed && armed[old(timersMade)] == event.sentenceId
      ensures pending == PutLast(old(pending), event.sentenceId, Pending(event, old(timersMade))) && delivered == old(delivered)
    {
      hide Good, Timed, Without;
      var s := event.sentenceId;
      EventsHas();
      PutAfterPop(Events(pending), s, event);
      WithoutIs(pending.keys, s);
      PutAfterPop(pending, s, Pending(event, timersMade));
      if s in pending.vals {
        TimedPop(pending, armed, timersMade, s);
        armed := armed - {pending.vals[s].handle};
        pending := Pop(pending, s);
      }
      TimedPut(pending, armed, timersMade, s, event);
      armed := armed[timersMade := s];
      pending := PutLast(pending, s, Pending(event, timersMade));
      timersMade := timersMade + 1;
      log := Hold(log, s);
      offers := offers + [event];
      assert View() == Replaced(old(View()), event);
    }

    /** Delivers one buffered sentence. */
    method Emit(s: string)
      requires Valid() && s in pending.vals
      modifies this
      ensures Valid() && s in old(View()).pending.vals && View() == Out(old(View()), s)
      ensures pending == Pop(old(pending), s) && armed == old(armed) - {old(pending).vals[s].handle}
      ensures delivered == old(delivered) + [old(pending).vals[s].event] && timersMade == old(timersMade)
    {
      hide Good, Timed, Without;
      EventsHas();
      OutGood(View(), s);
      TimedPop(pending, armed, timersMade, s);
      armed := armed - {pending.vals[s].handle};
      delivered := delivered + [pending.vals[s].event];
      pending := Pop(pending, s);
      log := Deliver(log, s);
    }

    method FlushOldest()
      requires Valid() && pending.keys != []
      modifies this
      ensures Valid() && old(View()).pending.keys[0] in old(View()).pending.vals
      ensures View() == Out(old(View()), old(View()).pending.keys[0]) && pending == PopFirst(old(pending))
      ensures old(pending).keys[0] in old(pending).vals && timersMade == old(timersMade)
      ensures delivered == old(delivered) + [old(pending).vals[old(pending).keys[0]].event]
    {
      hide Good, Timed, Without;
      FirstIsPending();
      Emit(pending.keys[0]);
    }

    /** The loop fires the timer of a sentence that stopped changing. */
    method TimerFires(t: nat)
      requires Valid() && t in armed
      modifies this
      ensures Valid() && old(armed)[t] in old(View()).pending.vals
      ensures View() == Out(old(View()), old(armed)[t]) && armed == old(armed) - {t}
      ensures old(armed)[t] in old(pending).vals && delivered == old(delivered) + [old(pending).vals[old(armed)[t]].event]
      ensures pending.vals == old(pending).vals - {old(armed)[t]}
    {
      hide Good, Without;
      Emit(armed[t]);
    }

    /** Delivers everything that is still buffered, oldest first. Afterwards the last revision of every
        sentence ever offered is out, exactly once, and no timer is left. */
    method FlushAll()
      requires Valid()
      modifies this
      ensures Valid() && View() == Flushed(old(View())) && pending == Empty() && armed == map[]
      ensures forall k :: k in old(View()).pending.keys ==> k in old(View()).pending.vals
      ensures delivered == old(delivered) + Values(old(View()).pending.keys, old(View()).pending.vals)
      ensures |offers| == |log.offered|
      ensures forall t :: 0 <= t < |offers| && !Superseded(log, t) ==> t in log.emitted
    {
      hide Good, Timed, Without;
      FlushedIs(View());
      while pending.keys != []
        invariant Valid() && Flushed(View()) == Flushed(old(View()))
        decreases |pending.keys|
      {
        FlushOldest();
      }
      AllOut();
    }

    /** Every buffered sentence has one live timer, and every live timer its sentence. */
    lemma EachHasItsTimer(s: string)
      requires Valid()
      ensures s in pending.vals <==> exists t :: t in armed && armed[t] == s
      ensures forall t, u :: t in armed && u in armed && armed[t] == armed[u] ==> t == u
    {
      hide Good;
      assert s in pending.vals ==> pending.vals[s].handle in armed;
    }

    lemma AllOut()
      requires Valid() && pending.keys == []
      ensures pending == Empty() && armed == map[] && View() == Flushed(View()) && |offers| == |log.offered|
    {
      hide Sound;
      EventsHas();
      assert pending.vals.Keys == {};
      NoTimers(pending, armed, timersMade);
    }
  }
}
