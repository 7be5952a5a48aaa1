/** One meeting session: what it submits to its delivery queue, and how it ends. */
module MeetingSession {
  import opened Wrappers
  import opened Stabilizer
  import SD = SerialDelivery

  datatype Event =
    | Activity(name: string, id: nat)
    | Spoken(transcript: Transcript)
    | End(reason: string)
    | Error(code: nat)

  /** What an activity can be unpacked into. */
  predicate Incoming(e: Event) {
    e.Activity? || e.Spoken?
  }

  predicate AllIncoming(events: seq<Event>) {
    forall k :: 0 <= k < |events| ==> Incoming(events[k])
  }

  function NameOf(e: Event): string {
    match e
    case Activity(name, _) => name
    case Spoken(_) => "transcript"
    case End(_) => "end"
    case Error(_) => "error"
  }

  /** The life of a session: its flags, the transcripts that have not settled, the subscribers, the
      delivery queue, every event it has tried to submit, the reports it had to hand to the subscribers
      directly, and how many departure calls it has started. */
  datatype Life = Life(
    closed: bool, ended: bool, left: bool, settling: Buffer, handlers: map<string, seq<nat>>,
    mailbox: SD.Mailbox<Event>, submitted: seq<Event>, direct: seq<Event>, departures: nat)

  function NewLife(window: real, maxQueued: int): Life {
    Life(false, false, false, NewBuffer(window), map[], SD.Mailbox(maxQueued, [], false, 0, []), [], [], 0)
  }

  function HandlersOf(l: Life, e: Event): seq<nat> {
    if NameOf(e) in l.handlers then l.handlers[NameOf(e)] else []
  }

  /** An event goes to the queue if somebody subscribed to it. */
  function Submitted(l: Life, e: Event): Life {
    l.(submitted := l.submitted + [e],
       mailbox := if HandlersOf(l, e) == [] then l.mailbox else SD.Posted(l.mailbox, SD.Entry(HandlersOf(l, e), e), false).0)
  }

  function AllSubmitted(l: Life, ts: seq<Transcript>): Life {
    if ts == [] then l else Submitted(AllSubmitted(l, ts[..|ts| - 1]), Spoken(ts[|ts| - 1]))
  }

  /** What the transcript buffer let out is submitted. */
  function Settles(l: Life, next: Buffer): Life {
    if l.settling.delivered <= next.delivered
    then AllSubmitted(l, next.delivered[|l.settling.delivered|..]).(settling := next) else l
  }

  function Received(l: Life, e: Event): Life
    requires Good(l.settling)
  {
    if e.Spoken? then Settles(l, Offered(l.settling, e.transcript)) else Submitted(l, e)
  }

  /** The events of one batch, in order. A closed session takes none. */
  function Ingested(l: Life, events: seq<Event>): (l': Life)
    requires AllIncoming(events) && Ok(l)
    ensures Ok(l') && l'.closed == l.closed && l'.left == l.left && l'.departures == l.departures
    ensures l'.mailbox.closed == l.mailbox.closed && l'.handlers == l.handlers
  {
    if l.closed || events == [] then l
    else
      var front := Ingested(l, events[..|events| - 1]);
      ReceivedOk(front, events[|events| - 1]);
      Received(front, events[|events| - 1])
  }

  function TimerFired(l: Life, sentence: string): Life
    requires Ok(l)
  {
    Settles(l, Fired(l.settling, sentence))
  }

  /** Closing lets out what had not settled, then the end. */
  function Closed(l: Life, reason: string): Life
    requires Ok(l)
  {
    if l.closed then l
    else Submitted(Settles(l, Flushed(l.settling)), End(reason)).(closed := true, ended := true)
  }

  /** A failure goes to the queue with the report reserve, else to the subscribers directly; without
      subscribers it is logged. */
  function Reported(l: Life, code: nat): Life {
    var e, l' := Error(code), l.(submitted := l.submitted + [Error(code)]);
    if HandlersOf(l, e) == [] then l'
    else
      var (mailbox, ok) := SD.Posted(l.mailbox, SD.Entry(HandlersOf(l, e), e), true);
      l'.(mailbox := mailbox, direct := if ok then l.direct else l.direct + [e])
  }

  /** Only a session that joined departs, and only once. */
  function Departing(l: Life, joined: bool): Life {
    if joined && !l.left then l.(left := true, departures := l.departures + 1) else l
  }

  function RemoveFirst(hs: seq<nat>, h: nat): seq<nat> {
    if hs == [] then [] else if hs[0] == h then hs[1..] else [hs[0]] + RemoveFirst(hs[1..], h)
  }

  function Subscribed(l: Life, name: string, h: nat): Life {
    l.(handlers := l.handlers[name := (if name in l.handlers then l.handlers[name] else []) + [h]])
  }

  function Unsubscribed(l: Life, name: string, h: nat): Life {
    if name !in l.handlers then l
    else
      var rest := RemoveFirst(l.handlers[name], h);
      l.(handlers := if rest == [] then l.handlers - {name} else l.handlers[name := rest])
  }

  /** The worker takes the oldest entry. */
  function Taken(l: Life): Life {
    if l.mailbox.queue == [] then l else l.(mailbox := l.mailbox.(queue := l.mailbox.queue[1..]))
  }

  /** The drain is over and the queue cancelled. */
  function Drained(l: Life): Life {
    l.(mailbox := l.mailbox.(closed := true))
  }

  // ---- what every step keeps -----------------------------------------------------------------------

  predicate NoEnd(events: seq<Event>) {
    forall k :: 0 <= k < |events| ==> !events[k].End?
  }

  /** At most one end, and nothing but error reports after it. */
  ghost predicate EndThenErrors(events: seq<Event>) {
    forall i, j :: 0 <= i < j < |events| && events[i].End? ==> events[j].Error?
  }

  function Payloads(entries: seq<SD.Entry<Event>>): (events: seq<Event>)
    ensures |events| == |entries|
    ensures forall k :: 0 <= k < |events| ==> events[k] == entries[k].payload
  {
    seq(|entries|, k requires 0 <= k < |entries| => entries[k].payload)
  }

  function Transcripts(events: seq<Event>): seq<Transcript> {
    if events == [] then []
    else Transcripts(events[..|events| - 1]) + if events[|events| - 1].Spoken? then [events[|events| - 1].transcript] else []
  }

  ghost predicate Ok(l: Life) {
    && l.closed == l.ended && l.departures == (if l.left then 1 else 0)
    && Good(l.settling) && Transcripts(l.submitted) == l.settling.delivered
    && EndThenErrors(l.submitted) && EndThenErrors(Payloads(l.mailbox.accepted))
    && (l.ended ==> l.settling.pending.keys == [] && !NoEnd(l.submitted))
    && (!l.ended ==> NoEnd(l.submitted) && NoEnd(Payloads(l.mailbox.accepted)))
  }

  lemma TranscriptsSnoc(events: seq<Event>, e: Event)
    ensures Transcripts(events + [e]) == Transcripts(events) + if e.Spoken? then [e.transcript] else []
  {
    assert (events + [e])[..|events|] == events;
  }

  /** Submitting to an open session. */
  ghost predicate Open(l: Life) {
    && !l.closed && !l.ended && l.departures == (if l.left then 1 else 0)
    && NoEnd(l.submitted) && NoEnd(Payloads(l.mailbox.accepted))
  }

  /** Everything but the queue and the log is as before. */
  predicate SameButSubmitted(l: Life, l': Life) {
    && l'.closed == l.closed && l'.ended == l.ended && l'.left == l.left && l'.departures == l.departures
    && l'.handlers == l.handlers && l'.direct == l.direct && l'.mailbox.closed == l.mailbox.closed
    && l'.mailbox.maxQueued == l.mailbox.maxQueued
  }

  lemma SameChain(l: Life, l': Life, l'': Life)
    ensures SameButSubmitted(l, l)
    ensures SameButSubmitted(l, l') && SameButSubmitted(l', l'') ==> SameButSubmitted(l, l'')
  {
  }

  lemma SubmittedOpen(l: Life, e: Event)
    requires Open(l) && !e.End?
    ensures var l' := Submitted(l, e);
      && Open(l') && SameButSubmitted(l, l') && l'.settling == l.settling
      && Transcripts(l'.submitted) == Transcripts(l.submitted) + if e.Spoken? then [e.transcript] else []
  {
    TranscriptsSnoc(l.submitted, e);
  }

  lemma {:induction false} AllSubmittedOpen(l: Life, ts: seq<Transcript>)
    requires Open(l)
    ensures var l' := AllSubmitted(l, ts);
      && Open(l') && SameButSubmitted(l, l') && l'.settling == l.settling
      && Transcripts(l'.submitted) == Transcripts(l.submitted) + ts
  {
    hide Open, Submitted, Transcripts, SameButSubmitted;
    SameChain(l, l, l);
    if ts != [] {
      var front, t := ts[..|ts| - 1], ts[|ts| - 1];
      AllSubmittedOpen(l, front);
      SubmittedOpen(AllSubmitted(l, front), Spoken(t));
      SameChain(l, AllSubmitted(l, front), AllSubmitted(l, ts));
      assert ts == front + [t];
    }
  }

  lemma OpenIs(l: Life)
    requires Ok(l) && !l.closed
    ensures Open(l) && Good(l.settling) && Transcripts(l.submitted) == l.settling.delivered
  {
    hide Good, Transcripts;
  }

  lemma OpenIsOk(l: Life)
    requires Open(l) && Good(l.settling) && Transcripts(l.submitted) == l.settling.delivered
    ensures Ok(l)
  {
    hide Good, Transcripts;
  }

  lemma SettlesOk(l: Life, next: Buffer)
    requires Ok(l) && !l.closed && Good(next) && l.settling.delivered <= next.delivered
    ensures Ok(Settles(l, next)) && SameButSubmitted(l, Settles(l, next)) && Settles(l, next).settling == next
  {
    hide Good, Transcripts, Open, Ok;
    OpenIs(l);
    AllSubmittedOpen(l, next.delivered[|l.settling.delivered|..]);
    OpenStays(AllSubmitted(l, next.delivered[|l.settling.delivered|..]), next);
    OpenIsOk(Settles(l, next));
  }

  lemma OpenStays(l: Life, next: Buffer)
    requires Open(l)
    ensures Open(l.(settling := next))
  {
  }

  lemma ReceivedOk(l: Life, e: Event)
    requires Ok(l) && !l.closed && Incoming(e)
    ensures Ok(Received(l, e)) && SameButSubmitted(l, Received(l, e))
  {
    hide Good, Transcripts, Open, Ok, Settles, Submitted;
    OpenIs(l);
    if e.Spoken? {
      SettlesOk(l, Offered(l.settling, e.transcript));
    } else {
      SubmittedOpen(l, e);
      OpenIsOk(Submitted(l, e));
    }
  }

  lemma TimerFiredOk(l: Life, sentence: string)
    requires Ok(l)
    ensures Ok(TimerFired(l, sentence)) && SameButSubmitted(l, TimerFired(l, sentence))
    ensures l.closed ==> TimerFired(l, sentence) == l
  {
    if l.closed {
      assert sentence !in l.settling.pending.vals by { NothingHeld(l.settling, sentence); }
      assert l.settling.delivered[|l.settling.delivered|..] == [];
    } else {
      SettlesOk(l, Fired(l.settling, sentence));
    }
  }

  lemma NothingHeld(b: Buffer, sentence: string)
    requires Good(b) && b.pending.keys == []
    ensures sentence !in b.pending.vals
  {
  }

  /** The session after its last transcripts went out. */
  function LetOut(l: Life): Life
    requires Good(l.settling)
  {
    Settles(l, Flushed(l.settling))
  }

  lemma LetOutOk(l: Life)
    requires Ok(l) && !l.closed
    ensures var f := LetOut(l);
      && Open(f) && SameButSubmitted(l, f) && Good(f.settling) && f.settling == Flushed(l.settling)
      && f.settling.pending.keys == [] && Transcripts(f.submitted) == f.settling.delivered
  {
    hide Good, Transcripts, Settles, Ok, Open;
    OpenIs(l);
    FlushedIs(l.settling);
    SettlesOk(l, Flushed(l.settling));
    OpenIs(LetOut(l));
  }

  lemma ClosedOk(l: Life, reason: string)
    requires Ok(l)
    ensures var l' := Closed(l, reason);
      && Ok(l') && l'.closed && l'.left == l.left && l'.departures == l.departures
      && l'.handlers == l.handlers && l'.mailbox.closed == l.mailbox.closed
    ensures !l.closed ==> EndsWith(Closed(l, reason).submitted, reason)
  {
    if !l.closed {
      hide Good, Transcripts, Ok, Settles, EndsWith;
      LetOutOk(l);
      EndedOk(LetOut(l), reason);
    }
  }

  lemma EndedOk(l: Life, reason: string)
    requires Open(l) && Good(l.settling) && l.settling.pending.keys == [] && Transcripts(l.submitted) == l.settling.delivered
    ensures var l' := Submitted(l, End(reason));
      && Ok(l'.(closed := true, ended := true)) && SameButSubmitted(l, l') && EndsWith(l'.submitted, reason)
  {
    hide Good, Transcripts;
    TranscriptsSnoc(l.submitted, End(reason));
    var l' := Submitted(l, End(reason));
    assert l'.submitted[|l.submitted|].End?;
  }

  lemma ReportedOk(l: Life, code: nat)
    requires Ok(l)
    ensures var l' := Reported(l, code);
      && Ok(l') && l'.closed == l.closed && l'.left == l.left && l'.departures == l.departures
  {
    hide Good, Transcripts;
    TranscriptsSnoc(l.submitted, Error(code));
    var l' := Reported(l, code);
    assert forall k :: 0 <= k < |l.submitted| ==> l'.submitted[k] == l.submitted[k];
  }

  // ---- whole lives ---------------------------------------------------------------------------------

  /** Everything that can happen to a session, in any interleaving of ingestion, timers, subscriptions,
      failures, the delivery worker, `dispose`, `leave` and `retire`. */
  datatype Op =
    | Ingest(events: seq<Event>)
    | Settle(sentence: string)
    | Close(reason: string)
    | Depart
    | Report(code: nat)
    | Subscribe(name: string, handler: nat)
    | Unsubscribe(name: string, handler: nat)
    | Take
    | Drain

  predicate Possible(ops: seq<Op>) {
    forall k :: 0 <= k < |ops| && ops[k].Ingest? ==> AllIncoming(ops[k].events)
  }

  function Step(l: Life, joined: bool, op: Op): (l': Life)
    requires Ok(l) && (op.Ingest? ==> AllIncoming(op.events))
    ensures Ok(l')
  {
    match op
    case Ingest(events) => Ingested(l, events)
    case Settle(sentence) => TimerFiredOk(l, sentence); TimerFired(l, sentence)
    case Close(reason) => ClosedOk(l, reason); Closed(l, reason)
    case Depart => Departing(l, joined)
    case Report(code) => ReportedOk(l, code); Reported(l, code)
    case Subscribe(name, h) => Subscribed(l, name, h)
    case Unsubscribe(name, h) => Unsubscribed(l, name, h)
    case Take => Taken(l)
    case Drain => Drained(l)
  }

  /** A step of any life; what is not a life is left alone. */
  ghost function Do(l: Life, joined: bool, op: Op): Life {
    if Ok(l) && (op.Ingest? ==> AllIncoming(op.events)) then Step(l, joined, op) else l
  }

  lemma DoKeeps(l: Life, joined: bool, op: Op)
    requires Ok(l)
    ensures Ok(Do(l, joined, op))
    ensures op.Close? && l.closed ==> Do(l, joined, op) == l
    ensures op.Ingest? && (l.closed || op.events == []) ==> Do(l, joined, op) == l
  {
    hide Ok;
  }

  function Lived(window: real, maxQueued: int, joined: bool, ops: seq<Op>): (l: Life)
    requires Possible(ops)
    ensures Ok(l)
  {
    if ops == [] then NewOk(window, maxQueued); NewLife(window, maxQueued)
    else Step(Lived(window, maxQueued, joined, ops[..|ops| - 1]), joined, ops[|ops| - 1])
  }

  lemma NewOk(window: real, maxQueued: int)
    ensures Ok(NewLife(window, maxQueued))
  {
    NewIsGood(window);
  }

  ghost predicate FirstClose(ops: seq<Op>, k: int)
    requires 0 <= k < |ops|
  {
    ops[k].Close? && forall i :: 0 <= i < k ==> !ops[i].Close?
  }

  predicate EverClosed(ops: seq<Op>) {
    exists k :: 0 <= k < |ops| && ops[k].Close?
  }

  /** Every end that was submitted gives this reason. */
  ghost predicate EndsWith(events: seq<Event>, reason: string) {
    forall k :: 0 <= k < |events| && events[k].End? ==> events[k] == End(reason)
  }

  lemma ClosedSoFar(ops: seq<Op>)
    requires ops != []
    ensures var front := ops[..|ops| - 1];
      && (EverClosed(ops) <==> EverClosed(front) || ops[|ops| - 1].Close?)
      && (forall k :: 0 <= k < |front| ==> (FirstClose(ops, k) <==> FirstClose(front, k)))
      && (FirstClose(ops, |ops| - 1) <==> ops[|ops| - 1].Close? && !EverClosed(front))
      && (forall k :: 0 <= k < |front| && FirstClose(front, k) ==> EverClosed(front))
  {
    var front := ops[..|ops| - 1];
    assert forall k :: 0 <= k < |front| ==> front[k] == ops[k];
    if EverClosed(front) {
      var k :| 0 <= k < |front| && front[k].Close?;
      assert ops[k].Close?;
    }
  }

  /** One step: the flags, and the ends among what is submitted. */
  lemma StepKeeps(l: Life, joined: bool, op: Op, reason: string)
    requires Ok(l) && (op.Ingest? ==> AllIncoming(op.events))
    ensures var l' := Step(l, joined, op);
      && l'.closed == (l.closed || op.Close?)
      && l'.departures == l.departures + (if op.Depart? && joined && !l.left then 1 else 0)
      && (l.closed && EndsWith(l.submitted, reason) ==> EndsWith(l'.submitted, reason))
      && (!l.closed && op.Close? ==> EndsWith(l'.submitted, op.reason))
  {
    hide Ok, Good, Transcripts, Settles, Received, Submitted, Payloads;
    var l' := Step(l, joined, op);
    match op {
      case Settle(sentence) => TimerFiredOk(l, sentence);
      case Close(r) => ClosedOk(l, r);
      case Report(code) => ReportedOk(l, code);
      case _ =>
    }
  }

  /** Over any life: the end is submitted exactly once if the session was ever closed and never
      otherwise, with the reason of the first closing; only error reports follow it, in what was
      submitted and in what the queue accepted; and there is at most one departure call, none for a
      session that only follows. */
  lemma {:induction false} EndsOnce(window: real, maxQueued: int, joined: bool, ops: seq<Op>)
    requires Possible(ops)
    ensures var l := Lived(window, maxQueued, joined, ops);
      && (l.closed <==> EverClosed(ops)) && (l.closed <==> !NoEnd(l.submitted))
      && EndThenErrors(l.submitted) && EndThenErrors(Payloads(l.mailbox.accepted))
      && l.departures <= 1 && (!joined ==> l.departures == 0)
    ensures forall k :: 0 <= k < |ops| && FirstClose(ops, k) ==>
      EndsWith(Lived(window, maxQueued, joined, ops).submitted, ops[k].reason)
  {
    if ops != [] {
      hide Ok, Step, EndsWith, FirstClose, EverClosed;
      var front, op := ops[..|ops| - 1], ops[|ops| - 1];
      EndsOnce(window, maxQueued, joined, front);
      var l := Lived(window, maxQueued, joined, front);
      ClosedSoFar(ops);
      StepKeeps(l, joined, op, "");
      forall k | 0 <= k < |ops| && FirstClose(ops, k)
        ensures EndsWith(Lived(window, maxQueued, joined, ops).submitted, ops[k].reason)
      {
        if k < |front| {
          StepKeeps(l, joined, op, front[k].reason);
        }
      }
    }
    OkMeans(Lived(window, maxQueued, joined, ops));
  }

  lemma OkMeans(l: Life)
    requires Ok(l)
    ensures l.closed <==> !NoEnd(l.submitted)
    ensures EndThenErrors(l.submitted) && EndThenErrors(Payloads(l.mailbox.accepted)) && l.departures <= 1
  {
  }

  // ---- who hears what ------------------------------------------------------------------------------

  /** The handlers subscribed under a name. */
  function HandlersFor(l: Life, name: string): seq<nat> {
    if name in l.handlers then l.handlers[name] else []
  }

  /** An event is queued for the handlers of its kind, if there are any and the queue is open and below its
      limit; whether or not it is, it counts as submitted. */
  lemma SubmittedIs(l: Life, e: Event)
    ensures var name := match e case Activity(name, _) => name case Spoken(_) => "transcript" case End(_) => "end" case Error(_) => "error";
      var hs, l' := HandlersFor(l, name), Submitted(l, e);
      && l'.submitted == l.submitted + [e]
      && l'.mailbox.queue == (if hs != [] && !l.mailbox.closed && |l.mailbox.queue| < l.mailbox.maxQueued
           then l.mailbox.queue + [SD.Entry(hs, e)] else l.mailbox.queue)
      && l'.mailbox.accepted == (if hs != [] && !l.mailbox.closed && |l.mailbox.queue| < l.mailbox.maxQueued
           then l.mailbox.accepted + [SD.Entry(hs, e)] else l.mailbox.accepted)
  {
  }

  /** A failure is heard by the subscribers: through the queue while it holds fewer than 32 more than its
      limit, or else directly. */
  lemma ReportIsHeard(l: Life, code: nat)
    ensures var l', hs := Reported(l, code), HandlersFor(l, "error");
      && l'.submitted == l.submitted + [Error(code)]
      && var queued := hs != [] && !l.mailbox.closed && |l.mailbox.queue| < l.mailbox.maxQueued + 32;
         && l'.mailbox.queue == (if queued then l.mailbox.queue + [SD.Entry(hs, Error(code))] else l.mailbox.queue)
         && l'.direct == (if hs != [] && !queued then l.direct + [Error(code)] else l.direct)
  {
  }

  /** The first occurrence of the handler is gone. */
  ghost predicate TakenOut(hs: seq<nat>, h: nat, rest: seq<nat>, k: nat) {
    k < |hs| && hs[k] == h && h !in hs[..k] && rest == hs[..k] + hs[k + 1..]
  }

  lemma {:induction false} RemoveFirstIs(hs: seq<nat>, h: nat) returns (k: nat)
    ensures if h in hs then TakenOut(hs, h, RemoveFirst(hs, h), k) else RemoveFirst(hs, h) == hs
  {
    if hs == [] || hs[0] == h {
      k := 0;
      assert hs != [] ==> hs[0] in hs;
    } else {
      k := RemoveFirstIs(hs[1..], h);
      assert hs == [hs[0]] + hs[1..];
      if h in hs {
        TakenOutCons(hs, h, RemoveFirst(hs[1..], h), k);
        k := k + 1;
      }
    }
  }

  lemma TakenOutCons(hs: seq<nat>, h: nat, rest: seq<nat>, k: nat)
    requires hs != [] && hs[0] != h && TakenOut(hs[1..], h, rest, k)
    ensures TakenOut(hs, h, [hs[0]] + rest, k + 1)
  {
    assert hs[..k + 1] == [hs[0]] + hs[1..][..k] && hs[k + 1 + 1..] == hs[1..][k + 1..];
  }

  /** Subscribing adds a handler behind the others of its name, unsubscribing takes its first occurrence
      away, and neither touches another name. */
  lemma SubscriptionIs(l: Life, name: string, h: nat, other: string)
    ensures HandlersFor(Subscribed(l, name, h), name) == HandlersFor(l, name) + [h]
    ensures var before, after := HandlersFor(l, name), HandlersFor(Unsubscribed(l, name, h), name);
      if h !in before then after == before
      else exists k: nat :: TakenOut(before, h, after, k)
    ensures other != name ==>
      && HandlersFor(Subscribed(l, name, h), other) == HandlersFor(l, other)
      && HandlersFor(Unsubscribed(l, name, h), other) == HandlersFor(l, other)
  {
    var before := HandlersFor(l, name);
    var k := RemoveFirstIs(before, h);
    assert HandlersFor(Unsubscribed(l, name, h), name) == RemoveFirst(before, h);
  }

  /** The events that are no transcripts. */
  function Others(events: seq<Event>): seq<Event> {
    if events == [] then []
    else Others(events[..|events| - 1]) + if events[|events| - 1].Spoken? then [] else [events[|events| - 1]]
  }

  lemma {:induction false} OthersConcat(a: seq<Event>, b: seq<Event>)
    ensures Others(a + b) == Others(a) + Others(b)
  {
    if b == [] {
      assert a + b == a;
    } else {
      OthersConcat(a, b[..|b| - 1]);
      assert (a + b)[..|a + b| - 1] == a + b[..|b| - 1];
    }
  }

  lemma AllSubmittedNext(l: Life, ts: seq<Transcript>)
    ensures AllSubmitted(l, []) == l
    ensures ts != [] ==> AllSubmitted(l, ts) == Submitted(AllSubmitted(l, ts[..|ts| - 1]), Spoken(ts[|ts| - 1]))
  {
  }

  lemma {:induction false} AllSpoken(l: Life, ts: seq<Transcript>) returns (out: seq<Event>)
    ensures AllSubmitted(l, ts).submitted == l.submitted + out && Others(out) == []
    ensures |out| == |ts| && (|ts| == 1 ==> out == [Spoken(ts[0])])
  {
    AllSubmittedNext(l, ts);
    if ts == [] {
      out := [];
      NoOthers();
    } else {
      hide Submitted, Others, AllSubmitted;
      var last := Spoken(ts[|ts| - 1]);
      var front := AllSpoken(l, ts[..|ts| - 1]);
      out := front + [last];
      OthersConcat(front, [last]);
      OthersOne(last);
      SubmittedIs(AllSubmitted(l, ts[..|ts| - 1]), last);
      Assoc(l.submitted, front, [last]);
    }
  }

  lemma NoOthers()
    ensures Others([]) == []
  {
  }

  lemma OthersOne(e: Event)
    ensures Others([e]) == if e.Spoken? then [] else [e]
  {
    assert [e][..|[e]| - 1] == [] && Others([]) == [];
  }

  lemma ReceivedSubmits(l: Life, e: Event) returns (out: seq<Event>)
    requires Ok(l) && !l.closed
    ensures Received(l, e).submitted == l.submitted + out && Others(out) == Others([e])
    ensures l.settling.window <= 0.0 ==> out == [e]
  {
    hide Sound, Describes;
    OthersOne(e);
    if e.Spoken? {
      OfferedGrows(l.settling, e.transcript);
      var next := Offered(l.settling, e.transcript);
      out := AllSpoken(l, next.delivered[|l.settling.delivered|..]);
    } else {
      out := [e];
    }
  }

  lemma OthersNext(done: seq<Event>, before: seq<Event>, last: seq<Event>, events: seq<Event>)
    requires events != [] && Others(before) == Others(events[..|events| - 1]) && Others(last) == Others([events[|events| - 1]])
    ensures Others(before + last) == Others(events) && (done + before) + last == done + (before + last)
    ensures before == events[..|events| - 1] && last == [events[|events| - 1]] ==> before + last == events
  {
    hide Others;
    OthersConcat(before, last);
    OthersConcat(events[..|events| - 1], [events[|events| - 1]]);
    FrontAndLast(events);
    Assoc(done, before, last);
  }

  lemma FrontAndLast<T>(s: seq<T>)
    requires s != []
    ensures s[..|s| - 1] + [s[|s| - 1]] == s
  {
  }

  /** An open session submits the events of a batch in order; the activities in place, the transcripts when
      they settle, or in place as well if there is no settling window. */
  lemma {:induction false} IngestedInOrder(l: Life, events: seq<Event>) returns (out: seq<Event>)
    requires Ok(l) && AllIncoming(events) && !l.closed
    ensures Ingested(l, events).submitted == l.submitted + out && Others(out) == Others(events)
    ensures l.settling.window <= 0.0 ==> out == events
  {
    if events == [] {
      IngestedNext(l, events);
      out := [];
    } else {
      hide Ok, Received, Others, Ingested;
      var front, e := events[..|events| - 1], events[|events| - 1];
      IngestedNext(l, events);
      var before := IngestedInOrder(l, front);
      var last := ReceivedSubmits(Ingested(l, front), e);
      out := before + last;
      OthersNext(l.submitted, before, last, events);
    }
  }

  lemma IngestedNext(l: Life, events: seq<Event>)
    requires Ok(l) && AllIncoming(events) && !l.closed
    ensures Ingested(l, []) == l
    ensures events != [] ==>
      var m := Ingested(l, events[..|events| - 1]);
      && Ok(m) && !m.closed && AllIncoming(events[..|events| - 1]) && m.settling.window == l.settling.window
      && Ingested(l, events) == Received(m, events[|events| - 1])
  {
    hide Ok, Received;
    if events != [] {
      WindowStays(l, events[..|events| - 1]);
    }
  }

  lemma {:induction false} WindowStays(l: Life, events: seq<Event>)
    requires Ok(l) && AllIncoming(events)
    ensures Ingested(l, events).settling.window == l.settling.window
  {
    hide Ok, Sound, Describes;
    if events != [] && !l.closed {
      WindowStays(l, events[..|events| - 1]);
    }
  }

  // ---- what becomes of the end ---------------------------------------------------------------------

  lemma {:induction false} AllSubmittedQueue(l: Life, ts: seq<Transcript>)
    ensures var m, m' := l.mailbox, AllSubmitted(l, ts).mailbox;
      && AllSubmitted(l, ts).handlers == l.handlers && m'.closed == m.closed && m'.maxQueued == m.maxQueued
      && (if m.closed || "transcript" !in l.handlers || l.handlers["transcript"] == [] || |m.queue| >= m.maxQueued then m'.queue == m.queue
          else |m'.queue| == if |m.queue| + |ts| < m.maxQueued then |m.queue| + |ts| else m.maxQueued)
  {
    if ts != [] {
      AllSubmittedQueue(l, ts[..|ts| - 1]);
    }
  }

  /** How many deliveries a closing session submits ahead of its end. */
  function Ahead(l: Life): nat {
    if "transcript" in l.handlers && l.handlers["transcript"] != [] then |l.settling.pending.keys| else 0
  }

  /** The end is accepted if and only if somebody subscribed to it, the queue is open, and it has room
      for the unsettled transcripts and the end. */
  lemma EndAccepted(l: Life, reason: string)
    requires Ok(l) && !l.closed
    ensures End(reason) in Payloads(Closed(l, reason).mailbox.accepted) <==>
      && "end" in l.handlers && l.handlers["end"] != [] && !l.mailbox.closed
      && |l.mailbox.queue| + Ahead(l) < l.mailbox.maxQueued
  {
    hide Good, Transcripts, Values;
    LetOutOk(l);
    FlushedIs(l.settling);
    var f := LetOut(l);
    var ts := f.settling.delivered[|l.settling.delivered|..];
    assert |ts| == |l.settling.pending.keys| by { ValuesSize(l.settling); }
    AllSubmittedQueue(l, ts);
    var accepted := Closed(l, reason).mailbox.accepted;
    if SD.Takes(f.mailbox, false) && HandlersOf(f, End(reason)) != [] {
      assert Payloads(accepted)[|f.mailbox.accepted|] == End(reason);
    } else {
      assert accepted == f.mailbox.accepted;
    }
  }

  lemma ValuesSize(b: Buffer)
    requires Good(b)
    ensures (forall k :: k in b.pending.keys ==> k in b.pending.vals) && |Values(b.pending.keys, b.pending.vals)| == |b.pending.keys|
  {
  }

  function Chatter(n: nat): (events: seq<Event>)
    ensures |events| == n && AllIncoming(events) && forall k :: 0 <= k < n ==> events[k] == Activity("chat", 0)
  {
    seq(n, _ => Activity("chat", 0))
  }

  /** Room for `n` more deliveries, and somebody listens. */
  predicate HasRoom(l: Life, n: nat) {
    && !l.mailbox.closed && |l.mailbox.queue| + n <= l.mailbox.maxQueued
    && "chat" in l.handlers && l.handlers["chat"] != []
  }

  lemma OneChat(l: Life, n: nat)
    requires n > 0 && HasRoom(l, n)
    ensures var l' := Submitted(l, Activity("chat", 0));
      && HasRoom(l', n - 1) && |l'.mailbox.queue| == |l.mailbox.queue| + 1 && l'.mailbox.maxQueued == l.mailbox.maxQueued
      && l'.settling == l.settling
  {
  }

  lemma {:induction false} ChatterFills(l: Life, n: nat, more: nat)
    requires Ok(l) && !l.closed && HasRoom(l, n + more)
    ensures var l' := Ingested(l, Chatter(n));
      && HasRoom(l', more) && |l'.mailbox.queue| == |l.mailbox.queue| + n && l'.mailbox.maxQueued == l.mailbox.maxQueued
      && l'.settling == l.settling
  {
    if n > 0 {
      hide Ok, Submitted, HasRoom;
      assert Chatter(n)[..n - 1] == Chatter(n - 1);
      ChatterFills(l, n - 1, more + 1);
      OneChat(Ingested(l, Chatter(n - 1)), more + 1);
    }
  }

  /** For every queue limit there is a life in which the end is submitted, and subscribed to, and the
      full queue refuses it. */
  lemma EndIsRefused(window: real, maxQueued: nat, joined: bool) returns (ops: seq<Op>)
    ensures Possible(ops)
    ensures var l := Lived(window, maxQueued, joined, ops);
      && l.closed && !NoEnd(l.submitted) && HandlersOf(l, End("left")) != [] && !l.mailbox.closed
      && NoEnd(Payloads(l.mailbox.accepted)) && l.mailbox.dropped > 0
  {
    hide Ok, Lived, Possible, Closed, Ingested, NoEnd, SD.Posted;
    var l0 := NewLife(window, maxQueued);
    NothingLived(window, maxQueued, joined);
    ops := [];
    LivedNext(window, maxQueued, joined, ops, Subscribe("chat", 1));
    ops := ops + [Subscribe("chat", 1)];
    LivedNext(window, maxQueued, joined, ops, Subscribe("end", 2));
    ops := ops + [Subscribe("end", 2)];
    LivedNext(window, maxQueued, joined, ops, Ingest(Chatter(maxQueued)));
    ChatterFills(Lived(window, maxQueued, joined, ops), maxQueued, 0);
    ops := ops + [Ingest(Chatter(maxQueued))];
    Refusal(Lived(window, maxQueued, joined, ops), "left");
    LivedNext(window, maxQueued, joined, ops, Close("left"));
    ops := ops + [Close("left")];
  }

  lemma NothingLived(window: real, maxQueued: int, joined: bool)
    ensures Possible([]) && Lived(window, maxQueued, joined, []) == NewLife(window, maxQueued)
  {
  }

  lemma LivedNext(window: real, maxQueued: int, joined: bool, ops: seq<Op>, op: Op)
    requires Possible(ops) && (op.Ingest? ==> AllIncoming(op.events))
    ensures Possible(ops + [op])
    ensures Lived(window, maxQueued, joined, ops + [op]) == Step(Lived(window, maxQueued, joined, ops), joined, op)
  {
    assert (ops + [op])[..|ops|] == ops;
  }

  lemma Refusal(l: Life, reason: string)
    requires Ok(l) && !l.closed && !l.mailbox.closed && HandlersOf(l, End(reason)) != []
    requires l.settling.pending.keys == [] && |l.mailbox.queue| >= l.mailbox.maxQueued
    ensures var l' := Closed(l, reason);
      && l'.closed && !NoEnd(l'.submitted) && HandlersOf(l', End(reason)) != [] && !l'.mailbox.closed
      && NoEnd(Payloads(l'.mailbox.accepted)) && l'.mailbox.dropped > 0
  {
    ClosedOk(l, reason);
    assert LetOut(l).mailbox == l.mailbox by {
      assert l.settling.delivered[|l.settling.delivered|..] == [];
    }
    OkMeans(Closed(l, reason));
  }

  // ---- what becomes of the transcripts -------------------------------------------------------------

  /** The transcripts of the batches a life took in before it was closed. */
  function Said(ops: seq<Op>): seq<Transcript> {
    if ops == [] then []
    else
      var front, op := ops[..|ops| - 1], ops[|ops| - 1];
      Said(front) + if op.Ingest? && !EverClosed(front) then Transcripts(op.events) else []
  }

  lemma {:induction false} IngestedOffers(l: Life, events: seq<Event>)
    requires Ok(l) && AllIncoming(events)
    ensures Ingested(l, events).settling.offers == l.settling.offers + if l.closed then [] else Transcripts(events)
  {
    hide Good, Ok;
    if events != [] && !l.closed {
      var front, e := events[..|events| - 1], events[|events| - 1];
      IngestedOffers(l, front);
      var m := Ingested(l, front);
      ReceivedOffers(m, e);
    }
  }

  lemma ReceivedOffers(l: Life, e: Event)
    requires Ok(l)
    ensures Received(l, e).settling.offers == l.settling.offers + if e.Spoken? then [e.transcript] else []
  {
    hide Sound, Describes;
  }

  lemma {:induction false} OffersAreSaid(window: real, maxQueued: int, joined: bool, ops: seq<Op>)
    requires Possible(ops)
    ensures Lived(window, maxQueued, joined, ops).settling.offers == Said(ops)
  {
    if ops != [] {
      hide Ok, Good, EverClosed, Transcripts, Received;
      var front, op := ops[..|ops| - 1], ops[|ops| - 1];
      OffersAreSaid(window, maxQueued, joined, front);
      EndsOnce(window, maxQueued, joined, front);
      StepOffers(Lived(window, maxQueued, joined, front), joined, op);
    }
  }

  lemma StepOffers(l: Life, joined: bool, op: Op)
    requires Ok(l) && (op.Ingest? ==> AllIncoming(op.events))
    ensures Step(l, joined, op).settling.offers ==
      l.settling.offers + if op.Ingest? && !l.closed then Transcripts(op.events) else []
  {
    hide Sound, Describes, Transcripts;
    match op {
      case Ingest(events) => IngestedOffers(l, events);
      case Close(reason) => FlushedIs(l.settling);
      case _ =>
    }
  }

  /** The settling theorem for sessions: once a session is closed, the last revision of every sentence
      it was told before has been submitted, ahead of the end. */
  lemma LastWordsAreOut(window: real, maxQueued: int, joined: bool, ops: seq<Op>, t: nat)
    requires Possible(ops) && EverClosed(ops) && t < |Said(ops)|
    requires forall u :: t < u < |Said(ops)| ==> Said(ops)[u].sentenceId != Said(ops)[t].sentenceId
    ensures Spoken(Said(ops)[t]) in Lived(window, maxQueued, joined, ops).submitted
  {
    var l := Lived(window, maxQueued, joined, ops);
    EndsOnce(window, maxQueued, joined, ops);
    OffersAreSaid(window, maxQueued, joined, ops);
    ClosedSettled(l, t);
  }

  lemma ClosedSettled(l: Life, t: nat)
    requires Ok(l) && l.closed && t < |l.settling.offers|
    requires forall u :: t < u < |l.settling.offers| ==> l.settling.offers[u].sentenceId != l.settling.offers[t].sentenceId
    ensures Spoken(l.settling.offers[t]) in l.submitted
  {
    hide Sound;
    NothingLeft(l.settling);
    assert !Superseded(l.settling.log, t);
    TranscriptsIn(l.submitted, l.settling.offers[t]);
  }

  lemma {:induction false} TranscriptsIn(events: seq<Event>, t: Transcript)
    ensures t in Transcripts(events) ==> Spoken(t) in events
  {
    if events != [] {
      TranscriptsIn(events[..|events| - 1], t);
    }
  }

  // ---- the session object --------------------------------------------------------------------------

  class Session {
    const meetingId: string
    /** Whether the bot is a participant, or only follows with a user's ticket. */
    const joined: bool

    var closed: bool
    var ended: bool
    var left: bool
    var settling: Buffer
    var handlers: map<string, seq<nat>>
    var mailbox: SD.Mailbox<Event>
    var submitted: seq<Event>
    var direct: seq<Event>
    var departures: nat

    function View(): Life
      reads this
    {
      Life(closed, ended, left, settling, handlers, mailbox, submitted, direct, departures)
    }

    constructor (meetingId: string, joined: bool, window: real, maxQueued: int)
      ensures View() == NewLife(window, maxQueued) && Ok(View()) && !closed
      ensures this.meetingId == meetingId && this.joined == joined
    {
      NewOk(window, maxQueued);
      this.meetingId, this.joined := meetingId, joined;
      closed, ended, left, settling, handlers := false, false, false, NewBuffer(window), map[];
      mailbox, submitted, direct, departures := SD.Mailbox(maxQueued, [], false, 0, []), [], [], 0;
    }

    lemma Flags()
      ensures View().closed == closed && View().left == left && View().departures == departures
    {
    }

    method On(name: string, h: nat)
      requires Ok(View())
      modifies this`handlers
      ensures View() == Do(old(View()), joined, Subscribe(name, h)) && Ok(View()) && closed == old(closed)
    {
      handlers := handlers[name := (if name in handlers then handlers[name] else []) + [h]];
    }

    /** Removing a handler, the first time only; a name without handlers is forgotten. */
    method Off(name: string, h: nat)
      requires Ok(View())
      modifies this`handlers
      ensures View() == Do(old(View()), joined, Unsubscribe(name, h)) && Ok(View()) && closed == old(closed)
    {
      if name !in handlers {
        return;
      }
      var rest := RemoveFirst(handlers[name], h);
      handlers := if rest == [] then handlers - {name} else handlers[name := rest];
    }

    method Emit(e: Event)
      modifies this`submitted, this`mailbox
      ensures View() == Submitted(old(View()), e)
    {
      submitted := submitted + [e];
      var hs := if NameOf(e) in handlers then handlers[NameOf(e)] else [];
      if hs != [] {
        mailbox := SD.Posted(mailbox, SD.Entry(hs, e), false).0;
      }
    }

    /** What the stabilizer lets out goes to the queue, in its order. */
    method EmitSettled(next: Buffer)
      requires settling.delivered <= next.delivered
      modifies this`settling, this`submitted, this`mailbox
      ensures View() == Settles(old(View()), next)
    {
      hide Submitted;
      var ts := next.delivered[|settling.delivered|..];
      for k := 0 to |ts|
        invariant View() == AllSubmitted(old(View()), ts[..k])
      {
        assert ts[..k + 1][..k] == ts[..k];
        Emit(Spoken(ts[k]));
      }
      assert ts[..|ts|] == ts;
      settling := next;
    }

    method Ingest(events: seq<Event>)
      requires Ok(View()) && AllIncoming(events)
      modifies this
      ensures View() == Do(old(View()), joined, Op.Ingest(events)) && Ok(View()) && closed == old(closed)
    {
      hide Ok, Submitted, Settles, Offered;
      if closed {
        return;
      }
      for k := 0 to |events|
        invariant AllIncoming(events[..k]) && Ok(old(View())) && Ok(View()) && !closed
        invariant View() == Ingested(old(View()), events[..k])
      {
        assert events[..k + 1][..k] == events[..k];
        ReceivedOk(View(), events[k]);
        OpenIs(View());
        if events[k].Spoken? {
          OfferedGrows(settling, events[k].transcript);
          EmitSettled(Offered(settling, events[k].transcript));
        } else {
          Emit(events[k]);
        }
      }
      assert events[..|events|] == events;
    }

    /** The timer of a sentence fires. */
    method TimerFires(sentence: string)
      requires Ok(View())
      modifies this
      ensures View() == Do(old(View()), joined, Settle(sentence)) && Ok(View()) && closed == old(closed)
    {
      hide Settles;
      TimerFiredOk(View(), sentence);
      EmitSettled(Fired(settling, sentence));
    }

    /** The local part of a teardown, without telling the registry. */
    method Close(reason: string)
      requires Ok(View()) && !closed
      modifies this
      ensures View() == Do(old(View()), joined, Op.Close(reason)) && Ok(View()) && closed && left == old(left)
    {
      hide Submitted, Good, Transcripts;
      ClosedOk(View(), reason);
      FlushedIs(settling);
      closed := true;
      FlagsUnseen(old(View()), Flushed(settling).delivered[|settling.delivered|..]);
      EmitSettled(Flushed(settling));
      assert View() == LetOut(old(View())).(closed := true);
      assert !ended by { LetOutOk(old(View())); }
      ended := true;
      EndUnfazed(LetOut(old(View())), reason);
      Emit(End(reason));
    }

    /** A failure is reported through the queue, or else directly. */
    method Report(code: nat)
      requires Ok(View())
      modifies this
      ensures View() == Do(old(View()), joined, Op.Report(code)) && Ok(View()) && closed == old(closed)
    {
      hide Ok;
      ReportedOk(View(), code);
      submitted := submitted + [Error(code)];
      var hs := if "error" in handlers then handlers["error"] else [];
      if hs == [] {
        return;
      }
      var (m, ok) := SD.Posted(mailbox, SD.Entry(hs, Error(code)), true);
      mailbox := m;
      if ok {
        return;
      }
      direct := direct + [Error(code)];
    }

    /** Whether this teardown makes the departure call. */
    method BeginDeparture() returns (departs: bool)
      requires Ok(View())
      modifies this`left, this`departures
      ensures View() == Do(old(View()), joined, Op.Depart) && Ok(View()) && closed == old(closed)
      ensures departs <==> joined && !old(left)
    {
      hide Good, NoEnd, EndThenErrors, Transcripts;
      if left || !joined {
        return false;
      }
      left, departures := true, departures + 1;
      return true;
    }
  }

  lemma OfferedGrows(b: Buffer, e: Transcript)
    requires Good(b)
    ensures b.delivered <= Offered(b, e).delivered
  {
    hide Sound, Describes;
  }

  /** The flags play no part in submitting. */
  lemma EndUnfazed(l: Life, reason: string)
    ensures Submitted(l.(closed := true, ended := true), End(reason)) == Submitted(l, End(reason)).(closed := true, ended := true)
  {
  }

  lemma {:induction false} FlagsUnseen(l: Life, ts: seq<Transcript>)
    ensures AllSubmitted(l.(closed := true), ts) == AllSubmitted(l, ts).(closed := true)
  {
    if ts != [] {
      FlagsUnseen(l, ts[..|ts| - 1]);
    }
  }
}
