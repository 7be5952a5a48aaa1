/** Guard against two bots mentioning each other forever: an incremental sliding window per key. */
module LoopGuard {
  import opened Wrappers
  import opened OrderedDict

  const MAX_KEYS: nat := 5000
  const MAX_ENTRIES: nat := 1024
  const DEFAULT_WINDOW_MS := 60000

  datatype Scope = PerChat | PerSender

  datatype Config = Config(enabled: bool, windowMs: int, maxBotMentions: int, scope: Scope)

  datatype Message = Message(id: string, time: int, chat: string, sender: string, human: bool, isBot: bool, mentionedBot: bool)

  /** One counted message. */
  datatype Mark = Mark(id: string, time: int)

  datatype KeyState = KeyState(entries: seq<Mark>, warned: bool, clock: Option<int>)

  const FRESH := KeyState([], false, None)

  // ---- one key -------------------------------------------------------------------------------------

  function Since(entries: seq<Mark>, cutoff: int): seq<Mark> {
    if entries == [] then []
    else
      var e := entries[|entries| - 1];
      Since(entries[..|entries| - 1], cutoff) + if e.time >= cutoff then [e] else []
  }

  predicate Counted(entries: seq<Mark>, id: string) {
    exists k :: 0 <= k < |entries| && entries[k].id == id
  }

  /** The entries before the cap is applied. */
  function Added(entries: seq<Mark>, cutoff: int, m: Mark): seq<Mark> {
    var kept := Since(entries, cutoff);
    if m.time >= cutoff && !Counted(kept, m.id) then kept + [m] else kept
  }

  /** The state of a key after one more bot mention. */
  function Recorded(s: KeyState, window: int, threshold: int, m: Mark): KeyState {
    var clock := if s.clock.None? || s.clock.value < m.time then m.time else s.clock.value;
    var added := Added(s.entries, clock - window, m);
    var capped := if |added| > MAX_ENTRIES then added[|added| - MAX_ENTRIES..] else added;
    KeyState(capped, |capped| >= threshold, Some(clock))
  }

  predicate Tripped(s: KeyState, threshold: int) {
    |s.entries| >= threshold
  }

  // ---- the full recount ----------------------------------------------------------------------------

  /** The state after a whole history of mentions. */
  function StateAfter(window: int, threshold: int, history: seq<Mark>): KeyState {
    if history == [] then FRESH
    else Recorded(StateAfter(window, threshold, history[..|history| - 1]), window, threshold, history[|history| - 1])
  }

  function Latest(history: seq<Mark>): int
    requires history != []
  {
    var m := history[|history| - 1].time;
    if |history| == 1 then m
    else
      var before := Latest(history[..|history| - 1]);
      if before < m then m else before
  }

  /** The marks of the whole history inside the window that ends at the largest time seen. The order of
      arrival plays no part. */
  function Recount(window: int, history: seq<Mark>): set<Mark> {
    if history == [] then {} else set m | m in history && m.time >= Latest(history) - window
  }

  /** An id always carries the same time. */
  ghost predicate TimesKept(history: seq<Mark>) {
    forall i, j :: 0 <= i < |history| && 0 <= j < |history| && history[i].id == history[j].id ==> history[i] == history[j]
  }

  /** The window never held more than `most` ids. */
  ghost predicate AtMost(most: nat, window: int, history: seq<Mark>) {
    forall n :: 0 <= n <= |history| ==> |Recount(window, history[..n])| <= most
  }

  ghost predicate WellBehaved(window: int, history: seq<Mark>) {
    TimesKept(history) && AtMost(MAX_ENTRIES, window, history)
  }

  lemma {:induction false} LatestIs(history: seq<Mark>)
    requires history != []
    ensures forall k :: 0 <= k < |history| ==> history[k].time <= Latest(history)
  {
    if |history| > 1 {
      LatestIs(history[..|history| - 1]);
    }
  }

  lemma {:induction false} SinceIs(entries: seq<Mark>, cutoff: int)
    ensures forall m :: m in Since(entries, cutoff) <==> m in entries && m.time >= cutoff
    ensures NoRepeats(entries) ==> NoRepeats(Since(entries, cutoff))
  {
    if entries != [] {
      var front, e := entries[..|entries| - 1], entries[|entries| - 1];
      SinceIs(front, cutoff);
      assert entries == front + [e];
      assert NoRepeats(entries) ==> e !in front;
    }
  }

  ghost predicate NoRepeats(entries: seq<Mark>) {
    forall i, j :: 0 <= i < j < |entries| ==> entries[i] != entries[j]
  }

  lemma {:induction false} DistinctSize(entries: seq<Mark>)
    requires NoRepeats(entries)
    ensures |set m | m in entries| == |entries|
  {
    if entries != [] {
      var front, e := entries[..|entries| - 1], entries[|entries| - 1];
      DistinctSize(front);
      assert entries == front + [e];
      assert (set m | m in entries) == (set m | m in front) + {e};
    }
  }

  /** The stored entries are exactly the recount, without repeats. */
  ghost predicate Refines(s: KeyState, window: int, history: seq<Mark>) {
    && NoRepeats(s.entries)
    && (forall m :: m in s.entries <==> m in Recount(window, history))
    && (if history == [] then s.clock == None else s.clock == Some(Latest(history)))
  }

  lemma RecountSnoc(window: int, history: seq<Mark>, m: Mark)
    requires window >= 0
    ensures var h := history + [m];
      forall x :: x in Recount(window, h) <==>
        x.time >= Latest(h) - window && (x == m || x in Recount(window, history))
    ensures Latest(history + [m]) == if history == [] || Latest(history) < m.time then m.time else Latest(history)
  {
    var h := history + [m];
    assert h[..|h| - 1] == history;
  }

  lemma {:induction false} StateRefinesRecount(window: int, threshold: int, history: seq<Mark>)
    requires window >= 0 && WellBehaved(window, history)
    ensures Refines(StateAfter(window, threshold, history), window, history)
  {
    if history != [] {
      var front, m := history[..|history| - 1], history[|history| - 1];
      hide Refines, WellBehaved, Recorded;
      assert history == front + [m];
      WellBehavedFront(window, history);
      StateRefinesRecount(window, threshold, front);
      RecordRefines(StateAfter(window, threshold, front), window, threshold, front, m);
    }
  }

  lemma WellBehavedFront(window: int, history: seq<Mark>)
    requires history != [] && WellBehaved(window, history)
    ensures WellBehaved(window, history[..|history| - 1])
  {
    var front := history[..|history| - 1];
    forall n | 0 <= n <= |front|
      ensures |Recount(window, front[..n])| <= MAX_ENTRIES
    {
      assert front[..n] == history[..n];
    }
  }

  /** The cap is not reached. */
  lemma AddedFits(added: seq<Mark>, window: int, h: seq<Mark>)
    requires NoRepeats(added) && WellBehaved(window, h) && forall x :: x in added <==> x in Recount(window, h)
    ensures |added| <= MAX_ENTRIES
  {
    hide Recount, WellBehaved, NoRepeats;
    DistinctSize(added);
    assert (set x | x in added) == Recount(window, h);
    FinalWindowFits(window, h);
  }

  lemma RecordRefines(s: KeyState, window: int, threshold: int, front: seq<Mark>, m: Mark)
    requires window >= 0 && Refines(s, window, front) && WellBehaved(window, front + [m])
    ensures Refines(Recorded(s, window, threshold, m), window, front + [m])
  {
    hide Recount, Latest, Added, WellBehaved, NoRepeats;
    RecountSnoc(window, front, m);
    AddedIsRecount(s, window, front, m);
    AddedFits(Added(s.entries, Latest(front + [m]) - window, m), window, front + [m]);
  }

  lemma AddedIsRecount(s: KeyState, window: int, front: seq<Mark>, m: Mark)
    requires window >= 0 && Refines(s, window, front) && WellBehaved(window, front + [m])
    ensures var added := Added(s.entries, Latest(front + [m]) - window, m);
      && NoRepeats(added)
      && forall x :: x in added <==> x in Recount(window, front + [m])
  {
    hide Recount, Latest, Since, WellBehaved, Counted;
    var cutoff := Latest(front + [m]) - window;
    RecountSnoc(window, front, m);
    SinceIs(s.entries, cutoff);
    SameIdSameMark(window, front, m, Since(s.entries, cutoff));
  }

  lemma FinalWindowFits(window: int, h: seq<Mark>)
    requires WellBehaved(window, h)
    ensures |Recount(window, h)| <= MAX_ENTRIES
  {
    assert h[..|h|] == h;
  }

  lemma SameIdSameMark(window: int, front: seq<Mark>, m: Mark, kept: seq<Mark>)
    requires WellBehaved(window, front + [m])
    requires forall x :: x in kept ==> x in Recount(window, front)
    ensures Counted(kept, m.id) <==> m in kept
  {
    var h := front + [m];
    if Counted(kept, m.id) {
      var k :| 0 <= k < |kept| && kept[k].id == m.id;
      assert kept[k] in kept && kept[k] in front;
      var i :| 0 <= i < |front| && front[i] == kept[k];
      assert h[i] == kept[k] && h[|front|] == m;
    }
  }

  /** What is recounted: whatever lies within the window of every other mention. */
  lemma RecountIs(window: int, history: seq<Mark>)
    requires window >= 0
    ensures forall m :: m in Recount(window, history) <==> m in history && forall x :: x in history ==> x.time - m.time <= window
  {
    if history != [] {
      hide Latest;
      LatestIs(history);
      var last := LatestMark(history);
    }
  }

  /** The guard trips exactly when a full recount finds enough distinct ids in the window. */
  lemma TripsExactly(window: int, threshold: int, history: seq<Mark>)
    requires window >= 0 && WellBehaved(window, history)
    ensures Tripped(StateAfter(window, threshold, history), threshold) <==>
      |set m | m in Recount(window, history) :: m.id| >= threshold
    ensures forall m :: m in Recount(window, history) <==>
      m in history && forall x :: x in history ==> x.time - m.time <= window
  {
    RecountIs(window, history);
    StateRefinesRecount(window, threshold, history);
    var s := StateAfter(window, threshold, history);
    DistinctSize(s.entries);
    assert (set m | m in s.entries) == Recount(window, history);
    IdsAsMany(Recount(window, history));
  }

  lemma {:induction false} IdsAsMany(marks: set<Mark>)
    requires forall a, b :: a in marks && b in marks && a.id == b.id ==> a == b
    ensures |set m | m in marks :: m.id| == |marks|
  {
    if marks != {} {
      var m :| m in marks;
      IdsAsMany(marks - {m});
      assert (set x | x in marks :: x.id) == (set x | x in marks - {m} :: x.id) + {m.id};
    }
  }

  // ---- exactly when the cap is harmless --------------------------------------------------------------

  /** The verdict equals the full recount. */
  ghost predicate Exact(window: int, threshold: int, history: seq<Mark>) {
    Tripped(StateAfter(window, threshold, history), threshold) <==>
      |set m | m in Recount(window, history) :: m.id| >= threshold
  }

  /** Some entries, and all of them in the window. */
  ghost predicate Alive(s: KeyState, window: int, clock: int) {
    s.entries != [] && s.clock == Some(clock) && forall e :: e in s.entries ==> e.time >= clock - window
  }

  lemma AddedAlive(entries: seq<Mark>, cutoff: int, m: Mark)
    requires m.time >= cutoff || (entries != [] && forall e :: e in entries ==> e.time >= cutoff)
    ensures Added(entries, cutoff, m) != [] && forall e :: e in Added(entries, cutoff, m) ==> e.time >= cutoff
  {
    hide Since;
    SinceIs(entries, cutoff);
    if m.time < cutoff {
      SinceAll(entries, cutoff);
    }
  }

  lemma RecordAlive(s: KeyState, window: int, threshold: int, clock: int, m: Mark)
    requires window >= 0 && (s == FRESH || Alive(s, window, clock))
    ensures Alive(Recorded(s, window, threshold, m), window, if s == FRESH || clock < m.time then m.time else clock)
  {
    hide Added;
    var now := if s == FRESH || clock < m.time then m.time else clock;
    AddedAlive(s.entries, now - window, m);
    var added := Added(s.entries, now - window, m);
    if |added| > MAX_ENTRIES {
      assert forall e :: e in added[|added| - MAX_ENTRIES..] ==> e in added;
    }
  }

  /** Something of the window is always remembered. */
  lemma {:induction false} NeverEmpty(window: int, threshold: int, history: seq<Mark>)
    requires window >= 0 && history != []
    ensures Alive(StateAfter(window, threshold, history), window, Latest(history))
  {
    hide Alive, Recorded, Recount;
    var front, m := history[..|history| - 1], history[|history| - 1];
    assert history == front + [m];
    RecountSnoc(window, front, m);
    StateSnoc(window, threshold, front, m);
    if front == [] {
      RecordAlive(FRESH, window, threshold, 0, m);
    } else {
      NeverEmpty(window, threshold, front);
      var s := StateAfter(window, threshold, front);
      assert s != FRESH by { AliveIsNotFresh(s, window, Latest(front)); }
      RecordAlive(s, window, threshold, Latest(front), m);
    }
  }

  lemma AliveIsNotFresh(s: KeyState, window: int, clock: int)
    requires Alive(s, window, clock)
    ensures s != FRESH
  {
  }

  /** A mark that is new and in the window, with nothing expiring. */
  lemma RecordKeeps(s: KeyState, window: int, threshold: int, clock: int, m: Mark)
    requires s.clock == Some(clock)
    requires var now := if clock < m.time then m.time else clock;
      m.time >= now - window && forall e :: e in s.entries ==> e.time >= now - window
    requires !Counted(s.entries, m.id)
    ensures var r, all := Recorded(s, window, threshold, m), s.entries + [m];
      && r.clock == Some(if clock < m.time then m.time else clock)
      && r.entries == if |all| > MAX_ENTRIES then all[|all| - MAX_ENTRIES..] else all
  {
    hide Since, Counted;
    SinceAll(s.entries, (if clock < m.time then m.time else clock) - window);
  }

  /** A mark so new that everything else expires. */
  lemma RecordDrops(s: KeyState, window: int, threshold: int, clock: int, m: Mark)
    requires s.clock == Some(clock) && clock < m.time && window >= 0
    requires forall e :: e in s.entries ==> e.time < m.time - window
    ensures Recorded(s, window, threshold, m).entries == [m] && Recorded(s, window, threshold, m).clock == Some(m.time)
  {
    SinceNone(s.entries, m.time - window);
  }

  lemma {:induction false} SinceAll(entries: seq<Mark>, cutoff: int)
    requires forall e :: e in entries ==> e.time >= cutoff
    ensures Since(entries, cutoff) == entries
  {
    if entries != [] {
      SinceAll(entries[..|entries| - 1], cutoff);
      assert entries == entries[..|entries| - 1] + [entries[|entries| - 1]];
    }
  }

  lemma OneSuffices(window: int, history: seq<Mark>)
    requires window >= 0
    ensures Exact(window, 1, history)
  {
    if history != [] {
      NeverEmpty(window, 1, history);
      var m := LatestMark(history);
      assert m in Recount(window, history);
      var ids := set x | x in Recount(window, history) :: x.id;
      assert m.id in ids;
      SubsetCard({m.id}, ids);
    }
  }

  lemma {:induction false} LatestMark(history: seq<Mark>) returns (m: Mark)
    requires history != []
    ensures m in history && m.time == Latest(history)
  {
    m := history[|history| - 1];
    if |history| > 1 && Latest(history[..|history| - 1]) >= m.time {
      m := LatestMark(history[..|history| - 1]);
    }
  }

  const FIRST := Mark("x", 1)

  /** `n` marks of one time, with ids of one letter and different lengths. */
  function Marks(letter: char, time: int, n: nat): (marks: seq<Mark>)
    ensures |marks| == n
    ensures forall i :: 0 <= i < n ==> marks[i].time == time && |marks[i].id| == i + 2 && marks[i].id[0] == letter
  {
    seq(n, i requires 0 <= i < n => Mark(seq(i + 2, _ => letter), time))
  }

  lemma MarksNext(letter: char, time: int, n: nat)
    ensures Marks(letter, time, n + 1) == Marks(letter, time, n) + [Marks(letter, time, n + 1)[n]]
    ensures !Counted(Marks(letter, time, n), Marks(letter, time, n + 1)[n].id)
  {
  }

  /** One mark, then as many older ones as the cap allows, which push it out. */
  function Flood(n: nat): seq<Mark> {
    [FIRST] + Marks('z', 0, n)
  }

  lemma {:induction false} FloodLatest(n: nat)
    ensures Latest(Flood(n)) == 1
  {
    if n > 0 {
      MarksNext('z', 0, n - 1);
      assert Flood(n)[..n] == Flood(n - 1);
      FloodLatest(n - 1);
    }
  }

  lemma FloodNext(n: nat)
    requires n > 0
    ensures var z := Marks('z', 0, n)[n - 1];
      && Flood(n) == Flood(n - 1) + [z] && z.time == 0 && !Counted(Flood(n - 1), z.id)
      && Flood(n)[1..] == Marks('z', 0, n)
      && forall e :: e in Flood(n - 1) ==> e.time >= 0
  {
    MarksNext('z', 0, n - 1);
    NotInFlood(n);
  }

  lemma {:induction false} FloodState(window: int, threshold: int, n: nat)
    requires window > 0 && n <= MAX_ENTRIES
    ensures var s := StateAfter(window, threshold, Flood(n));
      s.clock == Some(1) && s.entries == if n < MAX_ENTRIES then Flood(n) else Marks('z', 0, MAX_ENTRIES)
  {
    hide Counted, Recorded, Flood, Marks, StateAfter;
    if n == 0 {
      FirstState(window, threshold);
    } else {
      FloodState(window, threshold, n - 1);
      FloodNext(n);
      var z := Marks('z', 0, n)[n - 1];
      StateSnoc(window, threshold, Flood(n - 1), z);
      FloodLength(n - 1);
      RecordKeeps(StateAfter(window, threshold, Flood(n - 1)), window, threshold, 1, z);
    }
  }

  lemma FloodLength(n: nat)
    ensures |Flood(n)| == n + 1
  {
  }

  lemma FirstState(window: int, threshold: int)
    requires window > 0
    ensures StateAfter(window, threshold, Flood(0)) == KeyState([FIRST], 1 >= threshold, Some(1)) && Flood(0) == [FIRST]
  {
    assert Flood(0) == [FIRST] && Flood(0)[..0] == [];
  }

  lemma NotInFlood(n: nat)
    requires n > 0
    ensures !Counted(Flood(n - 1), Marks('z', 0, n)[n - 1].id)
  {
  }

  /** Then `j` new ones, for which all the older ones have expired but the first has not. */
  function Overrun(window: int, j: nat): seq<Mark> {
    Flood(MAX_ENTRIES) + Marks('n', window + 1, j)
  }

  lemma {:induction false} SinceNone(entries: seq<Mark>, cutoff: int)
    requires forall e :: e in entries ==> e.time < cutoff
    ensures Since(entries, cutoff) == []
  {
    if entries != [] {
      SinceNone(entries[..|entries| - 1], cutoff);
    }
  }

  lemma OverrunNext(window: int, j: nat)
    requires j > 0
    ensures var news := Marks('n', window + 1, j);
      && Overrun(window, j) == Overrun(window, j - 1) + [news[j - 1]] && news == Marks('n', window + 1, j - 1) + [news[j - 1]]
      && news[j - 1].time == window + 1 && !Counted(Marks('n', window + 1, j - 1), news[j - 1].id)
    ensures Overrun(window, 0) == Flood(MAX_ENTRIES)
  {
    MarksNext('n', window + 1, j - 1);
  }

  lemma {:induction false} OverrunState(window: int, threshold: int, j: nat)
    requires window > 0 && j > 0 && j < MAX_ENTRIES
    ensures var s := StateAfter(window, threshold, Overrun(window, j));
      s.clock == Some(window + 1) && s.entries == Marks('n', window + 1, j) && Latest(Overrun(window, j)) == window + 1
  {
    hide Counted, Recorded, Flood, Overrun, Recount;
    OverrunNext(window, j);
    var n, before := Marks('n', window + 1, j)[j - 1], Overrun(window, j - 1);
    StateSnoc(window, threshold, before, n);
    RecountSnoc(window, before, n);
    if j == 1 {
      FloodState(window, threshold, MAX_ENTRIES);
      FloodLatest(MAX_ENTRIES);
      FloodLength(MAX_ENTRIES);
      RecordDrops(StateAfter(window, threshold, before), window, threshold, 1, n);
    } else {
      OverrunState(window, threshold, j - 1);
      RecordKeeps(StateAfter(window, threshold, before), window, threshold, window + 1, n);
    }
  }

  /** The first mark is still in the window, but forgotten. */
  lemma OverrunHas(window: int, j: nat)
    requires window > 0 && 0 < j < MAX_ENTRIES
    ensures forall m :: m in [FIRST] + Marks('n', window + 1, j) ==> m in Recount(window, Overrun(window, j))
    ensures NoRepeats([FIRST] + Marks('n', window + 1, j))
  {
    hide NoRepeats, Latest, StateAfter, Marks, Recount, Overrun;
    OverrunState(window, 1, j);
    NewOnesDiffer(window, j);
    forall m | m in [FIRST] + Marks('n', window + 1, j)
      ensures m in Recount(window, Overrun(window, j))
    {
      OverrunMember(window, j, m);
    }
  }

  lemma OverrunMember(window: int, j: nat, m: Mark)
    requires window > 0 && m in [FIRST] + Marks('n', window + 1, j) && Latest(Overrun(window, j)) == window + 1
    ensures m in Recount(window, Overrun(window, j))
  {
    hide Latest, Recount;
    OverrunIs(window, j, m);
    InRecount(window, Overrun(window, j), m);
  }

  lemma OverrunIs(window: int, j: nat, m: Mark)
    requires window > 0 && m in [FIRST] + Marks('n', window + 1, j)
    ensures m in Overrun(window, j) && m.time >= 1
  {
    assert Overrun(window, j) == [FIRST] + (Marks('z', 0, MAX_ENTRIES) + Marks('n', window + 1, j));
  }

  lemma InRecount(window: int, h: seq<Mark>, m: Mark)
    requires m in h && m.time >= Latest(h) - window
    ensures m in Recount(window, h)
  {
  }

  lemma NewOnesDiffer(window: int, j: nat)
    ensures NoRepeats([FIRST] + Marks('n', window + 1, j))
  {
  }

  lemma NewIdsDiffer(window: int, j: nat)
    ensures forall a, b :: a in [FIRST] + Marks('n', window + 1, j) && b in [FIRST] + Marks('n', window + 1, j) && a.id == b.id ==> a == b
  {
  }

  lemma OverrunMisses(window: int, threshold: int)
    requires window > 0 && 2 <= threshold <= MAX_ENTRIES
    ensures !Exact(window, threshold, Overrun(window, threshold - 1))
  {
    hide Overrun, Recount, NoRepeats, StateAfter;
    var h := Overrun(window, threshold - 1);
    OverrunState(window, threshold, threshold - 1);
    OverrunHas(window, threshold - 1);
    NewIdsDiffer(window, threshold - 1);
    var seen := [FIRST] + Marks('n', window + 1, threshold - 1);
    DistinctSize(seen);
    var some := set m | m in seen;
    IdsAsMany(some);
    var few, ids := set m | m in some :: m.id, set m | m in Recount(window, h) :: m.id;
    assert few <= ids;
    SubsetCard(few, ids);
  }

  lemma OverrunTimesKept(window: int, j: nat)
    ensures TimesKept(Overrun(window, j))
  {
    var h := Overrun(window, j);
    forall a, b | 0 <= a < |h| && 0 <= b < |h| && h[a].id == h[b].id
      ensures h[a] == h[b]
    {
      assert |h[a].id| == |h[b].id| && h[a].id[0] == h[b].id[0];
    }
  }

  lemma {:induction false} FewMarks(history: seq<Mark>)
    ensures |set m | m in history| <= |history|
  {
    if history != [] {
      var front, m := history[..|history| - 1], history[|history| - 1];
      FewMarks(front);
      assert history == front + [m];
      assert (set x | x in history) == (set x | x in front) + {m};
    }
  }

  lemma OverrunFits(window: int, j: nat)
    requires window > 0 && j < MAX_ENTRIES
    ensures AtMost(MAX_ENTRIES + 1, window, Overrun(window, j))
  {
    var h := Overrun(window, j);
    forall n | 0 <= n <= |h|
      ensures |Recount(window, h[..n])| <= MAX_ENTRIES + 1
    {
      if n <= MAX_ENTRIES + 1 {
        FewMarks(h[..n]);
        SubsetCard(Recount(window, h[..n]), set m | m in h[..n]);
      } else {
        var i := n - MAX_ENTRIES - 1;
        assert h[..n] == Overrun(window, i) by { OverrunPrefix(window, j, i); }
        OverrunState(window, 1, i);
        var left := [FIRST] + Marks('n', window + 1, i);
        FewMarks(left);
        forall m | m in Recount(window, h[..n])
          ensures m in left
        {
          assert m in [FIRST] + Marks('z', 0, MAX_ENTRIES) + Marks('n', window + 1, i);
        }
        SubsetCard(Recount(window, h[..n]), set m | m in left);
      }
    }
  }

  lemma OverrunPrefix(window: int, j: nat, i: nat)
    requires i <= j
    ensures Overrun(window, j)[..MAX_ENTRIES + 1 + i] == Overrun(window, i)
  {
  }

  /** With a given number of ids at most in the window at any time, the verdict equals the full recount for
      every history if and only if that number is within the cap, or one mention is enough to trip. */
  lemma CapHarmlessIff(window: int, threshold: int, most: nat)
    requires window > 0 && 1 <= threshold <= 1024
    ensures most <= 1024 || threshold == 1 <==>
      forall history :: TimesKept(history) && AtMost(most, window, history) ==> Exact(window, threshold, history)
  {
    hide Exact, TimesKept, AtMost;
    if most <= MAX_ENTRIES || threshold == 1 {
      forall history | TimesKept(history) && AtMost(most, window, history)
        ensures Exact(window, threshold, history)
      {
        if threshold == 1 {
          OneSuffices(window, history);
        } else {
          Fewer(most, window, history);
          ExactWhenWellBehaved(window, threshold, history);
        }
      }
    } else {
      OverrunMisses(window, threshold);
      OverrunTimesKept(window, threshold - 1);
      OverrunFits(window, threshold - 1);
      More(most, window, Overrun(window, threshold - 1));
    }
  }

  lemma ExactWhenWellBehaved(window: int, threshold: int, history: seq<Mark>)
    requires window >= 0 && WellBehaved(window, history)
    ensures Exact(window, threshold, history)
  {
    TripsExactly(window, threshold, history);
  }

  lemma Fewer(most: nat, window: int, history: seq<Mark>)
    requires AtMost(most, window, history) && most <= MAX_ENTRIES
    ensures AtMost(MAX_ENTRIES, window, history)
  {
  }

  lemma More(most: nat, window: int, history: seq<Mark>)
    requires AtMost(MAX_ENTRIES + 1, window, history) && most > MAX_ENTRIES
    ensures AtMost(most, window, history)
  {
  }

  lemma StateSnoc(window: int, threshold: int, history: seq<Mark>, m: Mark)
    ensures StateAfter(window, threshold, history + [m]) ==
      Recorded(StateAfter(window, threshold, history), window, threshold, m)
    ensures StateAfter(window, threshold, []) == FRESH
  {
    assert (history + [m])[..|history|] == history;
  }

  // ---- the guard -----------------------------------------------------------------------------------

  function KeyFor(scope: Scope, m: Message): string {
    if scope == PerSender then m.chat + "::" + m.sender else m.chat
  }

  predicate OfChat(key: string, chat: string) {
    key == chat || chat + "::" <= key
  }

  // ---- which messages share a count ------------------------------------------------------------------

  lemma PrefixOf(a: string, b: string, c: string)
    requires a <= b + c && |a| <= |b|
    ensures a <= b
  {
    assert (b + c)[..|a|] == b[..|a|];
  }

  lemma FirstColon(chat: string, rest: string, k: nat)
    requires ':' !in chat
    ensures k < |chat| ==> (chat + "::" + rest)[k] != ':'
    ensures (chat + "::" + rest)[|chat|] == ':'
  {
    assert k < |chat| ==> (chat + "::" + rest)[k] == chat[k];
  }

  /** Two messages share a count exactly if they agree in the chat, or in the chat and the sender. For the
      latter the chat ids must be free of colons. */
  lemma CountsTogetherIff(scope: Scope, a: Message, b: Message)
    ensures scope == PerChat ==> (KeyFor(scope, a) == KeyFor(scope, b) <==> a.chat == b.chat)
    ensures scope == PerSender && ':' !in a.chat && ':' !in b.chat ==>
      (KeyFor(scope, a) == KeyFor(scope, b) <==> a.chat == b.chat && a.sender == b.sender)
  {
    if scope == PerSender && ':' !in a.chat && ':' !in b.chat && KeyFor(scope, a) == KeyFor(scope, b) {
      var k := KeyFor(scope, a);
      FirstColon(a.chat, a.sender, |b.chat|);
      FirstColon(b.chat, b.sender, |a.chat|);
      assert |a.chat| == |b.chat|;
      assert a.chat == k[..|a.chat|] == b.chat;
      assert a.sender == k[|a.chat| + 2..] == b.sender;
    }
  }

  /** A human message of a chat resets exactly the counts of that chat, if chat ids are free of colons. */
  lemma ResetsOwnChatIff(chat: string, m: Message)
    requires ':' !in chat && ':' !in m.chat
    ensures OfChat(KeyFor(PerSender, m), chat) <==> m.chat == chat
  {
    var k := KeyFor(PerSender, m);
    if m.chat == chat {
      assert k[..|chat| + 2] == chat + "::";
    } else if OfChat(k, chat) {
      ResetConfuses(m, chat);
      SameWithoutColons(m.chat, chat);
    }
  }

  lemma SameWithoutColons(a: string, b: string)
    requires Confusable(a, b) && ':' !in a && ':' !in b
    ensures a == b
  {
    if a + "::" <= b + "::" {
      ColonsTell(a, b);
    } else {
      ColonsTell(b, a);
    }
  }

  /** One id, with the separator behind it, starts the other. */
  predicate Confusable(a: string, b: string) {
    a + "::" <= b + "::" || b + "::" <= a + "::"
  }

  /** Some messages of the two chats share a count, or a human message of one chat resets a count of the
      other. */
  ghost predicate Interfere(a: string, b: string) {
    || (exists m: Message, n: Message :: m.chat == a && n.chat == b && KeyFor(PerSender, m) == KeyFor(PerSender, n))
    || (exists m: Message :: m.chat == a && OfChat(KeyFor(PerSender, m), b))
    || (exists m: Message :: m.chat == b && OfChat(KeyFor(PerSender, m), a))
  }

  lemma ResetConfuses(m: Message, chat: string)
    requires OfChat(KeyFor(PerSender, m), chat)
    ensures Confusable(m.chat, chat)
  {
    var k, own := KeyFor(PerSender, m), m.chat + "::";
    assert own <= k;
    if k == chat {
      assert own <= chat + "::";
    } else if |chat| <= |m.chat| {
      PrefixOf(chat + "::", own, m.sender);
    } else {
      assert own == k[..|own|];
      assert (chat + "::")[..|own|] == k[..|own|];
    }
  }

  lemma SharedConfuses(m: Message, n: Message)
    requires KeyFor(PerSender, m) == KeyFor(PerSender, n)
    ensures Confusable(m.chat, n.chat)
  {
    var a, b := m.chat + "::", n.chat + "::";
    assert KeyFor(PerSender, m) == a + m.sender && KeyFor(PerSender, n) == b + n.sender;
    if |a| <= |b| {
      PrefixOf(a, b, n.sender);
    } else {
      PrefixOf(b, a, m.sender);
    }
  }

  function From(chat: string, sender: string): Message {
    Message("", 0, chat, sender, false, true, true)
  }

  /** Counting by sender, two chats interfere if and only if one id with the separator starts the other;
      so never for ids without a colon. */
  lemma InterfereIff(a: string, b: string)
    ensures Interfere(a, b) <==> Confusable(a, b)
    ensures a != b && ':' !in a && ':' !in b ==> !Interfere(a, b)
  {
    if Interfere(a, b) {
      if m: Message, n: Message :| m.chat == a && n.chat == b && KeyFor(PerSender, m) == KeyFor(PerSender, n) {
        SharedConfuses(m, n);
      } else if m: Message :| m.chat == a && OfChat(KeyFor(PerSender, m), b) {
        ResetConfuses(m, b);
      } else {
        var m: Message :| m.chat == b && OfChat(KeyFor(PerSender, m), a);
        ResetConfuses(m, a);
      }
    }
    if Confusable(a, b) {
      ConfusedInterfere(a, b);
      if ':' !in a && ':' !in b {
        SameWithoutColons(a, b);
      }
    }
  }

  lemma ConfusedInterfere(a: string, b: string)
    requires Confusable(a, b)
    ensures Interfere(a, b)
  {
    if |a| <= |b| {
      SharedKey(a, b);
    } else {
      SharedKey(b, a);
    }
  }

  /** A sender whose key is the other chat's key with an empty sender. */
  lemma SharedKey(short: string, long: string)
    requires |short| <= |long| && Confusable(short, long)
    ensures exists m: Message, n: Message :: m.chat == short && n.chat == long && KeyFor(PerSender, m) == KeyFor(PerSender, n)
    ensures exists m: Message, n: Message :: m.chat == long && n.chat == short && KeyFor(PerSender, m) == KeyFor(PerSender, n)
  {
    var key := long + "::";
    var m, n := From(short, key[|short| + 2..]), From(long, "");
    assert short + "::" == key[..|short| + 2];
    assert KeyFor(PerSender, m) == key == KeyFor(PerSender, n);
    assert m.chat == short && n.chat == long;
  }

  lemma ColonsTell(a: string, b: string)
    requires a + "::" <= b + "::" && ':' !in b
    ensures a == b
  {
    assert (b + "::")[|a|] == (a + "::")[|a|] == ':';
    assert a == (a + "::")[..|a|] == (b + "::")[..|a|];
  }

  class LoopGuard {
    var enabled: bool
    var windowMs: int
    var threshold: int
    var scope: Scope
    var states: ODict<KeyState>

    /** The mentions counted for a key since it was last reset, evicted or created. */
    ghost var history: map<string, seq<Mark>>

    ghost predicate Valid()
      reads this
    {
      && OrderedDict.Valid(states) && |states.keys| <= 5000
      && windowMs > 0 && 1 <= threshold <= MAX_ENTRIES
      && forall k :: k in states.vals ==> k in history && states.vals[k] == StateAfter(windowMs, threshold, history[k])
    }

    constructor (cfg: Config)
      ensures Valid() && states == Empty() && enabled == cfg.enabled && scope == cfg.scope
      ensures windowMs == if cfg.windowMs > 0 then cfg.windowMs else 60000
      ensures threshold == if cfg.maxBotMentions < 1 then 1 else if cfg.maxBotMentions > 1024 then 1024 else cfg.maxBotMentions
    {
      states, history := Empty(), map[];
      enabled, scope, windowMs, threshold := cfg.enabled, cfg.scope, Window(cfg), Threshold(cfg);
    }

    /** Counting is kept when nothing that it depends on changed, and starts clean otherwise. */
    method Reconfigure(cfg: Config)
      requires Valid()
      modifies this
      ensures Valid() && enabled == cfg.enabled && scope == cfg.scope
      ensures windowMs == if cfg.windowMs > 0 then cfg.windowMs else 60000
      ensures threshold == if cfg.maxBotMentions < 1 then 1 else if cfg.maxBotMentions > 1024 then 1024 else cfg.maxBotMentions
      ensures states ==
        if (old(enabled), old(windowMs), old(threshold), old(scope)) == (enabled, windowMs, threshold, scope)
        then old(states) else Empty()
    {
      var prev := (enabled, windowMs, threshold, scope);
      enabled, scope, windowMs, threshold := cfg.enabled, cfg.scope, Window(cfg), Threshold(cfg);
      if prev != (enabled, windowMs, threshold, scope) {
        states := Empty();
      }
    }

    /** A human message breaks the ping-pong of its chat, for every sender, and of no other chat. */
    method ResetOnHuman(m: Message)
      requires Valid()
      modifies this`states
      ensures Valid()
      ensures !enabled || !m.human ==> states == old(states)
      ensures enabled && m.human ==>
        forall k :: k in states.vals <==> k in old(states).vals && !(if scope == PerSender then OfChat(k, m.chat) else k == m.chat)
      ensures forall k :: k in states.vals ==> states.vals[k] == old(states).vals[k]
      ensures enabled && m.human && ':' !in m.chat ==>
        forall x: Message :: ':' !in x.chat && KeyFor(scope, x) in old(states).vals ==>
          (KeyFor(scope, x) in states.vals <==> x.chat != m.chat)
    {
      if !enabled || !m.human {
        return;
      }
      forall x: Message | ':' !in x.chat && ':' !in m.chat
        ensures OfChat(KeyFor(PerSender, x), m.chat) <==> x.chat == m.chat
      {
        ResetsOwnChatIff(m.chat, x);
      }
      if scope == PerSender {
        ghost var bad := (k: string, s: KeyState) => OfChat(k, m.chat);
        var keys := states.keys;
        PopIfIs(states, keys, bad);
        for i := 0 to |keys|
          invariant states == PopIf(old(states), keys[..i], bad)
        {
          PopIfStep(old(states), keys, i, bad);
          if keys[i] in states.vals && OfChat(keys[i], m.chat) {
            states := Pop(states, keys[i]);
          }
        }
        assert keys[..|keys|] == keys;
      } else {
        PopValid(states, m.chat);
        states := Pop(states, m.chat);
      }
    }

    /** Counts a bot mention; every other message passes. The verdict equals a full recount as long as
        ids keep their times and the window stays below the cap. */
    method Record(m: Message) returns (tripped: bool)
      requires Valid()
      modifies this`states, this`history
      ensures Valid()
      ensures !enabled || m.human || !m.isBot || !m.mentionedBot ==> !tripped
      ensures !enabled || (!m.human && !(m.isBot && m.mentionedBot)) ==> states == old(states)
      ensures enabled && m.human ==> states == Pop(old(states), KeyFor(scope, m))
      ensures enabled && !m.human && m.isBot && m.mentionedBot ==>
        var key := KeyFor(scope, m);
        && key in history
        && history[key] == (if key in old(states).vals then old(history)[key] else []) + [Mark(m.id, m.time)]
        && states == Evict(PutLast(old(states), key, StateAfter(windowMs, threshold, history[key])), MAX_KEYS)
        && key in states.vals && (|old(states).keys| < 5000 ==> states.vals.Keys == old(states).vals.Keys + {key})
        && (WellBehaved(windowMs, history[key]) ==>
              (tripped <==> |set x | x in Recount(windowMs, history[key]) :: x.id| >= threshold))
    {
      hide StateAfter, Recorded, Without, Evict, WellBehaved, Recount, KeyFor;
      if !enabled {
        return false;
      }
      var key := KeyFor(scope, m);
      if m.human {
        PopValid(states, key);
        states := Pop(states, key);
        return false;
      }
      if !(m.isBot && m.mentionedBot) {
        return false;
      }
      var state := if key in states.vals then states.vals[key] else FRESH;
      ghost var h := (if key in states.vals then history[key] else []) + [Mark(m.id, m.time)];
      StateSnoc(windowMs, threshold, if key in states.vals then history[key] else [], Mark(m.id, m.time));
      state, tripped := Count(state, Mark(m.id, m.time));
      if WellBehaved(windowMs, h) {
        TripsExactly(windowMs, threshold, h);
      }
      Remember(key, state, h);
    }

    /** The window of one key after one more mention, and the verdict. */
    method Count(before: KeyState, m: Mark) returns (state: KeyState, tripped: bool)
      ensures state == Recorded(before, windowMs, threshold, m) && tripped == Tripped(state, threshold)
    {
      var prev := before.clock;
      var clock := if prev.None? || prev.value < m.time then m.time else prev.value;
      var cutoff := clock - windowMs;
      var entries := Since(before.entries, cutoff);
      if m.time >= cutoff && !Counted(entries, m.id) {
        entries := entries + [m];
      }
      if |entries| > MAX_ENTRIES {
        entries := entries[|entries| - MAX_ENTRIES..];
      }
      tripped := |entries| >= threshold;
      state := KeyState(entries, tripped, Some(clock));
    }

    method Remember(key: string, state: KeyState, ghost h: seq<Mark>)
      requires Valid() && state == StateAfter(windowMs, threshold, h)
      modifies this`states, this`history
      ensures Valid() && history == old(history)[key := h]
      ensures states == Evict(PutLast(old(states), key, state), MAX_KEYS)
      ensures key in states.vals && (|old(states).keys| < 5000 ==> states.vals.Keys == old(states).vals.Keys + {key})
    {
      hide StateAfter, Without, Evict;
      RememberedLast(states, key, state);
      PutLastValid(states, key, state);
      EvictValid(PutLast(states, key, state), MAX_KEYS);
      history := history[key := h];
      states := Evict(PutLast(states, key, state), MAX_KEYS);
    }
  }

  /** The key counted last is never the one that goes. */
  lemma RememberedLast(states: ODict<KeyState>, key: string, state: KeyState)
    requires OrderedDict.Valid(states)
    ensures var d := Evict(PutLast(states, key, state), MAX_KEYS);
      key in d.vals && (|states.keys| < 5000 ==> d.vals.Keys == states.vals.Keys + {key})
  {
    PutLastValid(states, key, state);
    WithoutIs(states.keys, key);
    AfterLast(Without(states.keys, key), key);
    EvictKeeps(PutLast(states, key, state), key, MAX_KEYS);
    EvictValid(PutLast(states, key, state), MAX_KEYS);
  }

  /** A window or a threshold that could disable the guard is corrected. */
  function Window(cfg: Config): (w: int)
    ensures w > 0
  {
    if cfg.windowMs > 0 then cfg.windowMs else DEFAULT_WINDOW_MS
  }

  function Threshold(cfg: Config): (t: int)
    ensures 1 <= t <= MAX_ENTRIES
  {
    if cfg.maxBotMentions < 1 then 1 else if cfg.maxBotMentions > MAX_ENTRIES then MAX_ENTRIES else cfg.maxBotMentions
  }
}
