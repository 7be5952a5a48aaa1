/** Connecting, disconnecting and reconnecting, as a protocol of coroutines over two locks.

    A step is what one coroutine does between two suspension points. `_lock` guards the connection and
    is held across a dial and across a close; `_reconnect_lock` is held across a whole reconnection.
    Dials and closes may succeed or fail. */
module Reconnect {
  import opened Wrappers

  /** What a coroutine was started for. `Cycle` is disconnect-and-reconnect; an expected connection is
      given by the receive loop of that connection. */
  datatype Job =
    | Connect
    | Disconnect(expected: Option<nat>)
    | Cycle(expected: Option<nat>)
    | Redial

  datatype Pc =
    | Receiving(conn: nat)   // a receive loop that still runs
    | WantReconnect          // waits for the reconnect lock
    | WantClose              // waits for the lock, to disconnect
    | Closing(conn: nat)     // holds the lock, awaits the close
    | WantDial               // waits for the lock (or sleeps before a retry), to connect
    | Dialing                // holds the lock, awaits the dial
    | Ended

  datatype Proc = Proc(job: Job, pc: Pc)

  /** A close that was attempted: by which coroutine, of which connection. */
  datatype Close = Close(actor: nat, conn: nat)

  datatype State = State(
    conn: Option<nat>,           // `_conn`
    lock: Option<nat>,
    reconnectLock: Option<nat>,
    procs: seq<Proc>,
    dialed: nat,                 // connections 0..dialed - 1 were opened, in this order
    closes: seq<Close>)

  datatype Step =
    | Start(job: Job)            // an application call; it expects no connection
    | LoopFails(p: nat)
    | TakeReconnectLock(p: nat)
    | TakeLockToClose(p: nat)
    | CloseReturns(p: nat, raised: bool)
    | TakeLockToDial(p: nat)
    | DialSucceeds(p: nat)
    | DialFails(p: nat, giveUp: bool)

  const INIT := State(None, None, None, [], 0, [])

  predicate At(st: State, p: nat, pc: Pc) {
    p < |st.procs| && st.procs[p].pc == pc
  }

  function Go(st: State, p: nat, pc: Pc): State
    requires p < |st.procs|
  {
    st.(procs := st.procs[p := st.procs[p].(pc := pc)])
  }

  predicate Reconnects(job: Job) {
    job.Cycle? || job.Redial?
  }

  /** The coroutine is over; a reconnection gives its lock back. */
  function Finish(st: State, p: nat): State
    requires p < |st.procs|
  {
    var over := Go(st, p, Ended);
    if Reconnects(st.procs[p].job) then over.(reconnectLock := None) else over
  }

  /** What follows once `_disconnect` has returned. */
  function AfterDisconnect(st: State, p: nat, disconnected: bool): State
    requires p < |st.procs|
  {
    match st.procs[p].job
    case Cycle(expected) =>
      if expected.Some? && !disconnected then Finish(st, p) else Go(st, p, WantDial)
    case _ => Finish(st, p)
  }

  predicate Enabled(st: State, step: Step) {
    match step
    case Start(job) => job in {Connect, Disconnect(None), Cycle(None), Redial}
    case LoopFails(p) => p < |st.procs| && st.procs[p].pc.Receiving?
    case TakeReconnectLock(p) => At(st, p, WantReconnect) && st.reconnectLock.None?
    case TakeLockToClose(p) => At(st, p, WantClose) && st.lock.None?
    case CloseReturns(p, _) => p < |st.procs| && st.procs[p].pc.Closing?
    case TakeLockToDial(p) => At(st, p, WantDial) && st.lock.None?
    case DialSucceeds(p) => At(st, p, Dialing)
    case DialFails(p, _) => At(st, p, Dialing)
  }

  /** The state after a step; `auto` is the auto-reconnect setting. */
  function Next(auto: bool, st: State, step: Step): State
    requires Enabled(st, step)
  {
    match step
    case Start(job) =>
      var pc := if Reconnects(job) then WantReconnect else if job.Connect? then WantDial else WantClose;
      st.(procs := st.procs + [Proc(job, pc)])
    case LoopFails(p) =>
      var c := Some(st.procs[p].pc.conn);
      st.(procs := st.procs[p := if auto then Proc(Cycle(c), WantReconnect) else Proc(Disconnect(c), WantClose)])
    case TakeReconnectLock(p) =>
      Go(st, p, if st.procs[p].job.Cycle? then WantClose else WantDial).(reconnectLock := Some(p))
    case TakeLockToClose(p) =>
      var expected := if st.procs[p].job.Cycle? || st.procs[p].job.Disconnect? then st.procs[p].job.expected else None;
      if st.conn.None? || (expected.Some? && st.conn != expected) then AfterDisconnect(st, p, false)
      else Go(st, p, Closing(st.conn.value)).(lock := Some(p), closes := st.closes + [Close(p, st.conn.value)])
    case CloseReturns(p, raised) =>
      // The reference is cleared whether or not the close raised.
      var cleared := st.(conn := None, lock := None);
      if raised then Finish(cleared, p) else AfterDisconnect(cleared, p, true)
    case TakeLockToDial(p) =>
      if st.conn.Some? then Finish(st, p) else Go(st, p, Dialing).(lock := Some(p))
    case DialSucceeds(p) =>
      var up := st.(conn := Some(st.dialed), dialed := st.dialed + 1, lock := None);
      var done := Finish(up, p);
      done.(procs := done.procs + [Proc(Connect, Receiving(st.dialed))])
    case DialFails(p, giveUp) =>
      var free := st.(lock := None);
      if giveUp || !Reconnects(st.procs[p].job) then Finish(free, p) else Go(free, p, WantDial)
  }

  // ---- the invariant -----------------------------------------------------------------------------

  predicate HoldsLock(pc: Pc) {
    pc.Closing? || pc.Dialing?
  }

  predicate InReconnect(q: Proc) {
    Reconnects(q.job) && (q.pc.WantClose? || q.pc.Closing? || q.pc.WantDial? || q.pc.Dialing?)
  }

  ghost predicate LocksExclusive(st: State) {
    && (forall p :: 0 <= p < |st.procs| ==> (HoldsLock(st.procs[p].pc) <==> st.lock == Some(p)))
    && (forall p :: 0 <= p < |st.procs| ==> (InReconnect(st.procs[p]) <==> st.reconnectLock == Some(p)))
    && (st.lock.Some? ==> st.lock.value < |st.procs|)
    && (st.reconnectLock.Some? ==> st.reconnectLock.value < |st.procs|)
  }

  ghost predicate Attempted(closes: seq<Close>, conn: nat) {
    exists i :: 0 <= i < |closes| && closes[i].conn == conn
  }

  ghost predicate AttemptedBy(closes: seq<Close>, p: nat, conn: nat) {
    exists i :: 0 <= i < |closes| && closes[i] == Close(p, conn)
  }

  /** The jobs that can stand at a program counter. */
  predicate Fits(q: Proc) {
    match q.pc
    case Receiving(_) => q.job == Connect
    case WantReconnect => Reconnects(q.job)
    case WantClose => q.job.Disconnect? || q.job.Cycle?
    case Closing(_) => q.job.Disconnect? || q.job.Cycle?
    case WantDial => !q.job.Disconnect?
    case Dialing => !q.job.Disconnect?
    case Ended => true
  }

  /** The program counters agree with the connection. */
  ghost predicate Placed(st: State, p: nat)
    requires p < |st.procs|
  {
    var q := st.procs[p];
    && (q.pc.Closing? ==> st.conn == Some(q.pc.conn) && AttemptedBy(st.closes, p, q.pc.conn))
    && (q.pc.Closing? && q.job.Cycle? ==> q.job.expected.None? || q.job.expected == st.conn)
    && (q.pc.Closing? && q.job.Disconnect? ==> q.job.expected.None? || q.job.expected == st.conn)
    && (q.pc.Dialing? ==> st.conn.None?)
    && Fits(q)
    && (q.job.Cycle? && q.job.expected.Some? && (q.pc.WantDial? || q.pc.Dialing?) ==>
         AttemptedBy(st.closes, p, q.job.expected.value))
  }

  /** Every opened connection but the current one was closed; the current one is closed only while
      somebody awaits its close; and no connection is closed twice. */
  ghost predicate ClosedOnce(st: State) {
    && (st.conn.Some? ==> st.conn.value < st.dialed)
    && (forall c: nat :: c < st.dialed && st.conn != Some(c) ==> Attempted(st.closes, c))
    && (forall i :: 0 <= i < |st.closes| ==> st.closes[i].conn < st.dialed)
    && (forall i, j :: 0 <= i < j < |st.closes| ==> st.closes[i].conn != st.closes[j].conn)
    && (st.conn.Some? && Attempted(st.closes, st.conn.value) ==>
         st.lock.Some? && At(st, st.lock.value, Closing(st.conn.value)))
  }

  ghost predicate Inv(st: State) {
    LocksExclusive(st) && ClosedOnce(st) && forall p :: 0 <= p < |st.procs| ==> Placed(st, p)
  }

  lemma AttemptsGrow(a: seq<Close>, b: seq<Close>)
    requires a <= b
    ensures forall c :: Attempted(a, c) ==> Attempted(b, c)
    ensures forall p, c :: AttemptedBy(a, p, c) ==> AttemptedBy(b, p, c)
  {
    forall c | Attempted(a, c)
      ensures Attempted(b, c)
    {
      var i :| 0 <= i < |a| && a[i].conn == c;
      assert b[i] == a[i];
    }
    forall p, c | AttemptedBy(a, p, c)
      ensures AttemptedBy(b, p, c)
    {
      var i :| 0 <= i < |a| && a[i] == Close(p, c);
      assert b[i] == a[i];
    }
  }

  lemma AttemptAdded(closes: seq<Close>, p: nat, c: nat)
    ensures AttemptedBy(closes + [Close(p, c)], p, c) && Attempted(closes + [Close(p, c)], c)
    ensures !Attempted(closes, c) ==> forall i :: 0 <= i < |closes| ==> closes[i].conn != c
  {
    assert (closes + [Close(p, c)])[|closes|] == Close(p, c);
  }

  lemma AttemptedByIsAttempted(closes: seq<Close>, p: nat, c: nat)
    requires AttemptedBy(closes, p, c)
    ensures Attempted(closes, c)
  {
  }

  lemma NewIsUnattempted(st: State)
    requires ClosedOnce(st)
    ensures !Attempted(st.closes, st.dialed)
  {
  }

  lemma CloseKeeps(auto: bool, st: State, p: nat)
    requires Inv(st) && Enabled(st, TakeLockToClose(p))
    ensures Inv(Next(auto, st, TakeLockToClose(p)))
  {
    hide Attempted, AttemptedBy;
    var st' := Next(auto, st, TakeLockToClose(p));
    assert Placed(st, p);
    if st'.closes == st.closes {
      CloseSkipped(auto, st, p);
    } else {
      AttemptsGrow(st.closes, st'.closes);
      AttemptAdded(st.closes, p, st.conn.value);
      assert LocksExclusive(st');
      assert ClosedOnce(st');
      forall k | 0 <= k < |st'.procs|
        ensures Placed(st', k)
      {
        assert Placed(st, k);
      }
    }
  }

  lemma CloseSkipped(auto: bool, st: State, p: nat)
    requires Inv(st) && Enabled(st, TakeLockToClose(p))
    requires Next(auto, st, TakeLockToClose(p)).closes == st.closes
    ensures Inv(Next(auto, st, TakeLockToClose(p)))
  {
    hide Attempted, AttemptedBy;
    var st' := Next(auto, st, TakeLockToClose(p));
    assert Placed(st, p);
    SkippedPlaces(auto, st, p);
    hide Placed;
    assert LocksExclusive(st');
  }

  lemma SkippedPlaces(auto: bool, st: State, p: nat)
    requires Inv(st) && Enabled(st, TakeLockToClose(p))
    requires Next(auto, st, TakeLockToClose(p)).closes == st.closes
    ensures var st' := Next(auto, st, TakeLockToClose(p)); forall k :: 0 <= k < |st'.procs| ==> Placed(st', k)
  {
    hide Attempted, AttemptedBy, LocksExclusive, ClosedOnce;
    var st' := Next(auto, st, TakeLockToClose(p));
    assert Placed(st, p);
    forall k | 0 <= k < |st'.procs|
      ensures Placed(st', k)
    {
      assert Placed(st, k);
    }
  }

  lemma CloseReturnsKeeps(auto: bool, st: State, p: nat, raised: bool)
    requires Inv(st) && Enabled(st, CloseReturns(p, raised))
    ensures Inv(Next(auto, st, CloseReturns(p, raised)))
  {
    hide Attempted, AttemptedBy;
    assert Placed(st, p);
    AttemptedByIsAttempted(st.closes, p, st.procs[p].pc.conn);
    var st' := Next(auto, st, CloseReturns(p, raised));
    assert LocksExclusive(st');
    assert ClosedOnce(st');
    forall k | 0 <= k < |st'.procs|
      ensures Placed(st', k)
    {
      assert Placed(st, k);
    }
  }

  lemma TakeLockToDialKeeps(auto: bool, st: State, p: nat)
    requires Inv(st) && Enabled(st, TakeLockToDial(p))
    ensures Inv(Next(auto, st, TakeLockToDial(p)))
  {
    hide AttemptedBy, Attempted;
    var st' := Next(auto, st, TakeLockToDial(p));
    assert Placed(st, p);
    assert LocksExclusive(st');
    assert ClosedOnce(st');
    forall k | 0 <= k < |st'.procs|
      ensures Placed(st', k)
    {
      if k < |st.procs| {
        assert Placed(st, k);
      }
    }
  }

  lemma DialSucceedsKeeps(auto: bool, st: State, p: nat)
    requires Inv(st) && Enabled(st, DialSucceeds(p))
    ensures Inv(Next(auto, st, DialSucceeds(p)))
  {
    hide AttemptedBy, Attempted;
    var st' := Next(auto, st, DialSucceeds(p));
    assert Placed(st, p);
    NewIsUnattempted(st);
    assert LocksExclusive(st');
    assert ClosedOnce(st');
    forall k | 0 <= k < |st'.procs|
      ensures Placed(st', k)
    {
      if k < |st.procs| {
        assert Placed(st, k);
      }
    }
  }

  lemma DialFailsKeeps(auto: bool, st: State, p: nat, giveUp: bool)
    requires Inv(st) && Enabled(st, DialFails(p, giveUp))
    ensures Inv(Next(auto, st, DialFails(p, giveUp)))
  {
    hide AttemptedBy, Attempted;
    var st' := Next(auto, st, DialFails(p, giveUp));
    assert Placed(st, p);
    assert LocksExclusive(st');
    assert ClosedOnce(st');
    forall k | 0 <= k < |st'.procs|
      ensures Placed(st', k)
    {
      if k < |st.procs| {
        assert Placed(st, k);
      }
    }
  }

  lemma StartKeeps(auto: bool, st: State, step: Step)
    requires Inv(st) && Enabled(st, step) && step.Start?
    ensures Inv(Next(auto, st, step))
  {
    hide Attempted, AttemptedBy;
    var st' := Next(auto, st, step);
    assert LocksExclusive(st') && ClosedOnce(st');
    forall k | 0 <= k < |st'.procs|
      ensures Placed(st', k)
    {
      assert k < |st.procs| ==> Placed(st, k);
    }
  }

  lemma OtherKeeps(auto: bool, st: State, step: Step)
    requires Inv(st) && Enabled(st, step) && (step.LoopFails? || step.TakeReconnectLock?)
    ensures Inv(Next(auto, st, step))
  {
    hide Attempted, AttemptedBy;
    var st' := Next(auto, st, step);
    assert Placed(st, step.p);
    assert LocksExclusive(st') && ClosedOnce(st');
    forall k | 0 <= k < |st'.procs|
      ensures Placed(st', k)
    {
      assert Placed(st, k);
    }
  }

  lemma NextKeeps(auto: bool, st: State, step: Step)
    requires Inv(st) && Enabled(st, step)
    ensures Inv(Next(auto, st, step))
  {
    hide Inv, Next;
    match step {
      case TakeLockToClose(p) => CloseKeeps(auto, st, p);
      case CloseReturns(p, raised) => CloseReturnsKeeps(auto, st, p, raised);
      case Start(_) => StartKeeps(auto, st, step);
      case LoopFails(_) => OtherKeeps(auto, st, step);
      case TakeReconnectLock(_) => OtherKeeps(auto, st, step);
      case TakeLockToDial(p) => TakeLockToDialKeeps(auto, st, p);
      case DialSucceeds(p) => DialSucceedsKeeps(auto, st, p);
      case DialFails(p, giveUp) => DialFailsKeeps(auto, st, p, giveUp);
    }
  }

  // ---- every interleaving --------------------------------------------------------------------------

  ghost predicate Run(auto: bool, states: seq<State>, steps: seq<Step>) {
    && |states| == |steps| + 1 && states[0] == INIT
    && forall i :: 0 <= i < |steps| ==> Enabled(states[i], steps[i]) && states[i + 1] == Next(auto, states[i], steps[i])
  }

  lemma {:induction false} RunKeepsInv(auto: bool, states: seq<State>, steps: seq<Step>, n: nat)
    requires Run(auto, states, steps) && n < |states|
    ensures Inv(states[n])
  {
    hide Inv, Next, Enabled;
    if n == 0 {
      InitInv();
    } else {
      RunKeepsInv(auto, states, steps, n - 1);
      NextKeeps(auto, states[n - 1], steps[n - 1]);
    }
  }

  lemma InitInv()
    ensures Inv(INIT)
  {
  }

  /** In every reachable state: every connection ever opened, except the current one, has had its close
      attempted; no connection is closed twice; and at most one coroutine touches the connection. */
  lemma ConnectionsAccounted(auto: bool, states: seq<State>, steps: seq<Step>, n: nat)
    requires Run(auto, states, steps) && n < |states|
    ensures var st := states[n];
      && (forall c: nat :: c < st.dialed && st.conn != Some(c) ==> Attempted(st.closes, c))
      && (forall i, j :: 0 <= i < j < |st.closes| ==> st.closes[i].conn != st.closes[j].conn)
      && (st.conn.Some? && Attempted(st.closes, st.conn.value) ==> exists p :: At(st, p, Closing(st.conn.value)))
      && (forall p, q :: 0 <= p < q < |st.procs| ==> !HoldsLock(st.procs[p].pc) || !HoldsLock(st.procs[q].pc))
  {
    RunKeepsInv(auto, states, steps, n);
  }

  /** A receive loop of an old connection never closes a newer one, and never dials over one: it dials
      only after it has itself closed its own connection, and only while there is no connection. */
  lemma StaleLoopIsHarmless(auto: bool, states: seq<State>, steps: seq<Step>, n: nat, p: nat)
    requires Run(auto, states, steps) && n < |states| && p < |states[n].procs|
    requires var job := states[n].procs[p].job; (job.Cycle? || job.Disconnect?) && job.expected.Some?
    ensures var st, q := states[n], states[n].procs[p];
      var own := q.job.expected.value;
      && (q.pc.Closing? ==> q.pc.conn == own && st.conn == Some(own))
      && (q.pc.Dialing? ==> st.conn.None? && AttemptedBy(st.closes, p, own))
      && (q.pc.WantDial? ==> AttemptedBy(st.closes, p, own))
  {
    RunKeepsInv(auto, states, steps, n);
    assert Placed(states[n], p);
  }

  // ---- what a loss leads to ------------------------------------------------------------------------

  /** The steps can be taken one after the other, and lead from one state to the other. */
  ghost predicate Leads(auto: bool, st: State, steps: seq<Step>, st': State)
    decreases |steps|
  {
    if steps == [] then st' == st
    else Enabled(st, steps[0]) && Leads(auto, Next(auto, st, steps[0]), steps[1..], st')
  }

  lemma LeadsOne(auto: bool, st: State, step: Step, rest: seq<Step>, st': State)
    requires Enabled(st, step) && Leads(auto, Next(auto, st, step), rest, st')
    ensures Leads(auto, st, [step] + rest, st')
  {
    hide Enabled, Next;
    assert ([step] + rest)[1..] == rest;
  }

  lemma LeadsNowhere(auto: bool, st: State)
    ensures Leads(auto, st, [], st)
  {
  }

  /** `p` is at `pc`, with this job. */
  function Placing(st: State, p: nat, job: Job, pc: Pc): seq<Proc>
    requires p < |st.procs|
  {
    st.procs[p := Proc(job, pc)]
  }

  /** The current connection is lost while nobody else is at it: its receive loop closes it, dials, and the
      receive loop of the new connection runs; both locks are free again. */
  lemma LossIsRepaired(st: State, p: nat)
    requires p < |st.procs| && st.procs[p].pc.Receiving? && st.conn == Some(st.procs[p].pc.conn)
    requires st.lock.None? && st.reconnectLock.None?
    ensures var c := st.procs[p].pc.conn;
      Leads(true, st, [LoopFails(p), TakeReconnectLock(p), TakeLockToClose(p), CloseReturns(p, false), TakeLockToDial(p), DialSucceeds(p)],
        State(Some(st.dialed), None, None, Placing(st, p, Cycle(Some(c)), Ended) + [Proc(Connect, Receiving(st.dialed))],
              st.dialed + 1, st.closes + [Close(p, c)]))
  {
    var c := st.procs[p].pc.conn;
    var job := Cycle(Some(c));
    var closes := st.closes + [Close(p, c)];
    var s1 := State(Some(c), None, None, Placing(st, p, job, WantReconnect), st.dialed, st.closes);
    var s2 := State(Some(c), None, Some(p), Placing(st, p, job, WantClose), st.dialed, st.closes);
    var s3 := State(Some(c), Some(p), Some(p), Placing(st, p, job, Closing(c)), st.dialed, closes);
    var s4 := State(None, None, Some(p), Placing(st, p, job, WantDial), st.dialed, closes);
    var s5 := State(None, Some(p), Some(p), Placing(st, p, job, Dialing), st.dialed, closes);
    var s6 := State(Some(st.dialed), None, None, Placing(st, p, job, Ended) + [Proc(Connect, Receiving(st.dialed))], st.dialed + 1, closes);
    assert Next(true, st, LoopFails(p)) == s1;
    assert Next(true, s1, TakeReconnectLock(p)) == s2;
    assert Next(true, s2, TakeLockToClose(p)) == s3;
    assert Next(true, s3, CloseReturns(p, false)) == s4;
    assert Next(true, s4, TakeLockToDial(p)) == s5;
    assert Next(true, s5, DialSucceeds(p)) == s6;
    hide Next, Leads;
    LeadsNowhere(true, s6);
    LeadsOne(true, s5, DialSucceeds(p), [], s6);
    LeadsOne(true, s4, TakeLockToDial(p), [DialSucceeds(p)], s6);
    LeadsOne(true, s3, CloseReturns(p, false), [TakeLockToDial(p), DialSucceeds(p)], s6);
    LeadsOne(true, s2, TakeLockToClose(p), [CloseReturns(p, false), TakeLockToDial(p), DialSucceeds(p)], s6);
    LeadsOne(true, s1, TakeReconnectLock(p), [TakeLockToClose(p), CloseReturns(p, false), TakeLockToDial(p), DialSucceeds(p)], s6);
    LeadsOne(true, st, LoopFails(p), [TakeReconnectLock(p), TakeLockToClose(p), CloseReturns(p, false), TakeLockToDial(p), DialSucceeds(p)], s6);
  }

  /** A dial that fails is tried again from where it was, with the reconnection still under way; only giving
      up, or a plain connect, ends it. */
  lemma FailedDial(auto: bool, st: State, p: nat, giveUp: bool)
    requires At(st, p, WantDial) && st.lock.None? && st.conn.None?
    ensures Leads(auto, st, [TakeLockToDial(p), DialFails(p, giveUp)],
      if giveUp || st.procs[p].job.Connect? || st.procs[p].job.Disconnect?
      then st.(procs := Placing(st, p, st.procs[p].job, Ended),
               reconnectLock := if st.procs[p].job.Cycle? || st.procs[p].job.Redial? then None else st.reconnectLock)
      else st)
  {
    var s1 := Next(auto, st, TakeLockToDial(p));
    var s2 := Next(auto, s1, DialFails(p, giveUp));
    assert s1.procs == Placing(st, p, st.procs[p].job, Dialing);
    assert s2.procs == Placing(st, p, st.procs[p].job, if giveUp || st.procs[p].job.Connect? || st.procs[p].job.Disconnect? then Ended else WantDial);
    assert Placing(st, p, st.procs[p].job, WantDial) == st.procs;
    LeadsNowhere(auto, s2);
    LeadsOne(auto, s1, DialFails(p, giveUp), [], s2);
    LeadsOne(auto, st, TakeLockToDial(p), [DialFails(p, giveUp)], s2);
  }

  /** Nobody dials over a connection: whoever finds one is done. */
  lemma DialFindsConnection(auto: bool, st: State, p: nat)
    requires At(st, p, WantDial) && st.lock.None? && st.conn.Some?
    ensures Enabled(st, TakeLockToDial(p))
    ensures Next(auto, st, TakeLockToDial(p)) == st.(procs := Placing(st, p, st.procs[p].job, Ended),
      reconnectLock := if st.procs[p].job.Cycle? || st.procs[p].job.Redial? then None else st.reconnectLock)
  {
  }

  /** The receive loop of a connection that is not the current one any more leaves everything alone. */
  lemma StaleLossIsIgnored(st: State, p: nat)
    requires p < |st.procs| && st.procs[p].pc.Receiving? && st.conn != Some(st.procs[p].pc.conn)
    requires st.lock.None? && st.reconnectLock.None?
    ensures Leads(true, st, [LoopFails(p), TakeReconnectLock(p), TakeLockToClose(p)],
      st.(procs := Placing(st, p, Cycle(Some(st.procs[p].pc.conn)), Ended)))
    ensures Leads(false, st, [LoopFails(p), TakeLockToClose(p)],
      st.(procs := Placing(st, p, Disconnect(Some(st.procs[p].pc.conn)), Ended)))
  {
    var c := Some(st.procs[p].pc.conn);
    var s1 := st.(procs := Placing(st, p, Cycle(c), WantReconnect));
    var s2 := st.(procs := Placing(st, p, Cycle(c), WantClose), reconnectLock := Some(p));
    var s3 := st.(procs := Placing(st, p, Cycle(c), Ended));
    var t1 := st.(procs := Placing(st, p, Disconnect(c), WantClose));
    var t2 := st.(procs := Placing(st, p, Disconnect(c), Ended));
    assert Next(true, st, LoopFails(p)) == s1;
    assert Next(true, s1, TakeReconnectLock(p)) == s2;
    assert Next(true, s2, TakeLockToClose(p)) == s3;
    assert Next(false, st, LoopFails(p)) == t1;
    assert Next(false, t1, TakeLockToClose(p)) == t2;
    hide Next, Leads;
    LeadsNowhere(true, s3);
    LeadsOne(true, s2, TakeLockToClose(p), [], s3);
    LeadsOne(true, s1, TakeReconnectLock(p), [TakeLockToClose(p)], s3);
    LeadsOne(true, st, LoopFails(p), [TakeReconnectLock(p), TakeLockToClose(p)], s3);
    LeadsNowhere(false, t2);
    LeadsOne(false, t1, TakeLockToClose(p), [], t2);
    LeadsOne(false, st, LoopFails(p), [TakeLockToClose(p)], t2);
  }

  /** Without automatic reconnection a lost connection is closed, and that is all; and so is one whose close
      raises, with it. */
  lemma LossWithoutRepair(auto: bool, st: State, p: nat, raised: bool)
    requires p < |st.procs| && st.procs[p].pc.Receiving? && st.conn == Some(st.procs[p].pc.conn)
    requires st.lock.None? && st.reconnectLock.None? && (auto ==> raised)
    ensures var c := st.procs[p].pc.conn;
      Leads(auto, st, (if auto then [LoopFails(p), TakeReconnectLock(p)] else [LoopFails(p)]) + [TakeLockToClose(p), CloseReturns(p, raised)],
        State(None, None, None, Placing(st, p, if auto then Cycle(Some(c)) else Disconnect(Some(c)), Ended), st.dialed, st.closes + [Close(p, c)]))
  {
    var c := st.procs[p].pc.conn;
    var job := if auto then Cycle(Some(c)) else Disconnect(Some(c));
    var lock := if auto then Some(p) else None;
    var s1 := State(Some(c), None, None, Placing(st, p, job, WantReconnect), st.dialed, st.closes);
    var s2 := State(Some(c), None, lock, Placing(st, p, job, WantClose), st.dialed, st.closes);
    var s3 := State(Some(c), Some(p), lock, Placing(st, p, job, Closing(c)), st.dialed, st.closes + [Close(p, c)]);
    var s4 := State(None, None, None, Placing(st, p, job, Ended), st.dialed, st.closes + [Close(p, c)]);
    assert Next(auto, st, LoopFails(p)) == if auto then s1 else s2;
    assert auto ==> Next(auto, s1, TakeReconnectLock(p)) == s2;
    assert Next(auto, s2, TakeLockToClose(p)) == s3;
    assert Next(auto, s3, CloseReturns(p, raised)) == s4;
    hide Next, Leads;
    LeadsNowhere(auto, s4);
    LeadsOne(auto, s3, CloseReturns(p, raised), [], s4);
    LeadsOne(auto, s2, TakeLockToClose(p), [CloseReturns(p, raised)], s4);
    if auto {
      LeadsOne(auto, s1, TakeReconnectLock(p), [TakeLockToClose(p), CloseReturns(p, raised)], s4);
      LeadsOne(auto, st, LoopFails(p), [TakeReconnectLock(p), TakeLockToClose(p), CloseReturns(p, raised)], s4);
      assert [LoopFails(p), TakeReconnectLock(p)] + [TakeLockToClose(p), CloseReturns(p, raised)]
        == [LoopFails(p)] + [TakeReconnectLock(p), TakeLockToClose(p), CloseReturns(p, raised)];
    } else {
      LeadsOne(auto, st, LoopFails(p), [TakeLockToClose(p), CloseReturns(p, raised)], s4);
    }
  }

  /** An application call: connecting opens a connection and starts its receive loop, disconnecting closes
      the current one. */
  lemma CallsDoTheirWork(auto: bool, st: State)
    requires st.lock.None?
    ensures st.conn.None? ==> Leads(auto, st, [Start(Connect), TakeLockToDial(|st.procs|), DialSucceeds(|st.procs|)],
      st.(conn := Some(st.dialed), dialed := st.dialed + 1, procs := st.procs + [Proc(Connect, Ended), Proc(Connect, Receiving(st.dialed))]))
    ensures st.conn.Some? ==> Leads(auto, st, [Start(Disconnect(None)), TakeLockToClose(|st.procs|), CloseReturns(|st.procs|, false)],
      st.(conn := None, procs := st.procs + [Proc(Disconnect(None), Ended)], closes := st.closes + [Close(|st.procs|, st.conn.value)]))
  {
    var n := |st.procs|;
    if st.conn.None? {
      var s1 := st.(procs := st.procs + [Proc(Connect, WantDial)]);
      var s2 := st.(procs := st.procs + [Proc(Connect, Dialing)], lock := Some(n));
      var s3 := st.(conn := Some(st.dialed), dialed := st.dialed + 1, procs := st.procs + [Proc(Connect, Ended), Proc(Connect, Receiving(st.dialed))]);
      assert Next(auto, st, Start(Connect)) == s1;
      assert Next(auto, s1, TakeLockToDial(n)) == s2;
      assert Next(auto, s2, DialSucceeds(n)) == s3;
      hide Next, Leads;
      LeadsNowhere(auto, s3);
      LeadsOne(auto, s2, DialSucceeds(n), [], s3);
      LeadsOne(auto, s1, TakeLockToDial(n), [DialSucceeds(n)], s3);
      LeadsOne(auto, st, Start(Connect), [TakeLockToDial(n), DialSucceeds(n)], s3);
    } else {
      var job, closes := Disconnect(None), st.closes + [Close(n, st.conn.value)];
      var s1 := st.(procs := st.procs + [Proc(job, WantClose)]);
      var s2 := st.(procs := st.procs + [Proc(job, Closing(st.conn.value))], lock := Some(n), closes := closes);
      var s3 := st.(conn := None, procs := st.procs + [Proc(job, Ended)], closes := closes);
      assert Next(auto, st, Start(job)) == s1;
      assert Next(auto, s1, TakeLockToClose(n)) == s2;
      assert Next(auto, s2, CloseReturns(n, false)) == s3;
      hide Next, Leads;
      LeadsNowhere(auto, s3);
      LeadsOne(auto, s2, CloseReturns(n, false), [], s3);
      LeadsOne(auto, s1, TakeLockToClose(n), [CloseReturns(n, false)], s3);
      LeadsOne(auto, st, Start(job), [TakeLockToClose(n), CloseReturns(n, false)], s3);
    }
  }

  /** The two locks never block each other: in every reachable state in which some coroutine has neither
      ended nor still receives, some coroutine that waits, closes or dials can move. */
  lemma NoDeadlock(auto: bool, states: seq<State>, steps: seq<Step>, n: nat, p: nat) returns (step: Step)
    requires Run(auto, states, steps) && n < |states| && p < |states[n].procs|
    requires !states[n].procs[p].pc.Ended? && !states[n].procs[p].pc.Receiving?
    ensures Enabled(states[n], step) && !step.Start? && !step.LoopFails?
  {
    RunKeepsInv(auto, states, steps, n);
    step := CanMove(states[n], p);
  }

  lemma CanMove(st: State, p: nat) returns (step: Step)
    requires LocksExclusive(st) && p < |st.procs| && !st.procs[p].pc.Ended? && !st.procs[p].pc.Receiving?
    ensures Enabled(st, step) && !step.Start? && !step.LoopFails?
  {
    if st.lock.Some? {
      var q := st.lock.value;
      step := if st.procs[q].pc.Closing? then CloseReturns(q, false) else DialSucceeds(q);
    } else {
      var q := if st.procs[p].pc.WantReconnect? && st.reconnectLock.Some? then st.reconnectLock.value else p;
      step := if st.procs[q].pc.WantReconnect? then TakeReconnectLock(q)
        else if st.procs[q].pc.WantClose? then TakeLockToClose(q) else TakeLockToDial(q);
    }
  }
}
