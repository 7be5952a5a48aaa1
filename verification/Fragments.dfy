/** Reassembly of fragmented frames, with limits. */
module Fragments {
  import opened Wrappers
  import opened ExpiringCache

  type Bytes = seq<bv8>

  type Positive = n: int | n > 0 witness 1

  /** Limits on resources. Unless `drop` is set they are only audited. */
  datatype Limits = Limits(maxParts: Option<Positive>, maxBytes: Option<Positive>, drop: bool)

  /** One cached message: how many parts it has, those that arrived, and the byte accounting. */
  datatype Partial = Partial(sum: int, parts: map<int, Bytes>, totalBytes: int)

  datatype Store = Store(entries: Entries<Partial>, lastClear: real)

  const TTL := 5.0

  predicate TooManyParts(l: Limits, n: int) {
    l.maxParts.Some? && n > l.maxParts.value
  }

  predicate TooManyBytes(l: Limits, n: int) {
    l.maxBytes.Some? && n > l.maxBytes.value
  }

  function Join(parts: map<int, Bytes>, n: nat): Bytes
    requires forall i :: 0 <= i < n ==> i in parts
  {
    if n == 0 then [] else Join(parts, n - 1) + parts[n - 1]
  }

  /** A dictionary of parts that are all in range holds as many as it has distinct keys. */
  ghost predicate InRange(p: Partial) {
    2 <= p.sum && forall i :: i in p.parts ==> 0 <= i < p.sum
  }

  function Counted(p: Partial, seqNo: int, bs: Bytes): Partial {
    p.(totalBytes := p.totalBytes + |bs| - if seqNo in p.parts then |p.parts[seqNo]| else 0)
  }

  function Stored(p: Partial, seqNo: int, bs: Bytes): Partial {
    p.(parts := p.parts[seqNo := bs])
  }

  /** The entry a fragment works on: the cached one if its count agrees, or else a new one. */
  function Current(s: Store, msgId: string, sum: int, now: real): (Partial, bool) {
    var v := Visible(s.entries, msgId, now);
    if v.Some? && v.value.sum == sum then (v.value, true) else (Partial(sum, map[], 0), false)
  }

  /** Writes through to the cache when the entry is the cached object itself. */
  function Through(entries: Entries<Partial>, msgId: string, cached: bool, p: Partial): Entries<Partial> {
    if cached && msgId in entries then entries[msgId := (p, entries[msgId].1)] else entries
  }

  ghost predicate Usable(s: Store) {
    forall k :: k in s.entries ==> InRange(s.entries[k].0)
  }

  /** What one fragment does. `interval` is the sweep interval of the cache. */
  function Combined(l: Limits, interval: real, s: Store, msgId: string, sum: int, seqNo: int, bs: Bytes, now: real): (r: (Store, Option<Bytes>))
    requires Usable(s)
    ensures Usable(r.0)
  {
    if sum <= 1 then (s, Some(bs))
    else if seqNo < 0 || seqNo >= sum then (s, None)
    else if TooManyParts(l, sum) && l.drop then (s, None)
    else Worked(l, interval, s, msgId, sum, seqNo, bs, now)
  }

  /** A well-formed fragment: the bytes are counted first, then the limit is checked, and only then is
      the part stored. The count is not rolled back when the part is dropped. */
  function Worked(l: Limits, interval: real, s: Store, msgId: string, sum: int, seqNo: int, bs: Bytes, now: real): (r: (Store, Option<Bytes>))
    requires Usable(s) && 0 <= seqNo < sum && 2 <= sum
    ensures Usable(r.0)
  {
    var entries := AfterGet(s.entries, msgId, now);
    var (base, cached) := Current(s, msgId, sum, now);
    var counted := Counted(base, seqNo, bs);
    if TooManyBytes(l, counted.totalBytes) && l.drop then
      (s.(entries := Through(entries, msgId, cached, counted)), None)
    else
      var p := Stored(counted, seqNo, bs);
      assert InRange(base) && InRange(p);
      Settled(interval, s.(entries := Through(entries, msgId, cached, p)), msgId, p, now)
  }

  /** An incomplete message is kept for another while; a complete one is joined. */
  function Settled(interval: real, s: Store, msgId: string, p: Partial, now: real): (r: (Store, Option<Bytes>))
    requires Usable(s) && InRange(p)
    ensures Usable(r.0)
  {
    if |p.parts| < p.sum then
      var sweep := now - s.lastClear >= interval;
      (Store((if sweep then Cleared(s.entries, now) else s.entries)[msgId := (p, now + TTL)],
             if sweep then now else s.lastClear), None)
    else
      FullHasAll(p);
      (s, Some(Join(p.parts, p.sum)))
  }

  // ---- counting parts ----------------------------------------------------------------------------

  function Range(n: nat): (r: set<int>)
    ensures forall i :: i in r <==> 0 <= i < n
  {
    if n == 0 then {} else Range(n - 1) + {n - 1}
  }

  lemma {:induction false} RangeCard(n: nat)
    ensures |Range(n)| == n
  {
    if n > 0 {
      RangeCard(n - 1);
    }
  }

  /** `n` distinct numbers below `n` are all of them. */
  lemma Pigeonhole(keys: set<int>, n: nat)
    requires keys <= Range(n)
    ensures |keys| <= n && (|keys| == n <==> keys == Range(n))
  {
    RangeCard(n);
    assert Range(n) == keys + (Range(n) - keys);
    if |keys| == n {
      assert |Range(n) - keys| == 0;
    }
  }

  lemma FullHasAll(p: Partial)
    requires InRange(p)
    ensures |p.parts| <= p.sum
    ensures |p.parts| >= p.sum <==> p.parts.Keys == Range(p.sum)
    ensures |p.parts| >= p.sum ==> forall i :: 0 <= i < p.sum ==> i in p.parts
  {
    Pigeonhole(p.parts.Keys, p.sum);
    assert |p.parts| == |p.parts.Keys|;
    if |p.parts| >= p.sum {
      assert forall i :: 0 <= i < p.sum ==> i in p.parts.Keys;
    }
  }

  // ---- byte accounting ---------------------------------------------------------------------------

  /** One arriving fragment. */
  datatype Arrival = Arrival(msgId: string, sum: int, seqNo: int, bs: Bytes, now: real)

  /** The bytes really stored for part numbers below `n`. */
  function BytesBelow(parts: map<int, Bytes>, n: nat): nat {
    if n == 0 then 0 else BytesBelow(parts, n - 1) + if n - 1 in parts then |parts[n - 1]| else 0
  }

  lemma {:induction false} BytesAfterStore(parts: map<int, Bytes>, n: nat, k: int, bs: Bytes)
    ensures BytesBelow(parts[k := bs], n) == BytesBelow(parts, n)
      + if 0 <= k < n then |bs| - (if k in parts then |parts[k]| else 0) else 0
  {
    if n > 0 {
      BytesAfterStore(parts, n - 1, k, bs);
    }
  }

  lemma {:induction false} NoBytes(n: nat)
    ensures BytesBelow(map[], n) == 0
  {
    if n > 0 {
      NoBytes(n - 1);
    }
  }

  /** The count never falls below what is stored. When overflow is dropped the stored bytes respect the
      limit; when nothing can be dropped the count is exact. */
  ghost predicate Accounted(l: Limits, p: Partial) {
    && InRange(p)
    && BytesBelow(p.parts, p.sum) <= p.totalBytes
    && (l.drop && l.maxBytes.Some? ==> BytesBelow(p.parts, p.sum) <= l.maxBytes.value)
    && (!l.drop || l.maxBytes.None? ==> p.totalBytes == BytesBelow(p.parts, p.sum))
  }

  ghost predicate AllAccounted(l: Limits, s: Store) {
    forall k :: k in s.entries ==> Accounted(l, s.entries[k].0)
  }

  /** The entries of other messages are kept unless they have expired. */
  lemma OthersKept(l: Limits, interval: real, s: Store, a: Arrival, other: string)
    requires Usable(s) && other != a.msgId
    ensures var s' := Combined(l, interval, s, a.msgId, a.sum, a.seqNo, a.bs, a.now).0;
      && (other in s'.entries ==> other in s.entries && s'.entries[other] == s.entries[other])
      && (other in s.entries && !(s.entries[other].1 < a.now) ==> other in s'.entries)
  {
    hide Counted, Stored, Join;
  }

  lemma CountedAccounted(l: Limits, p: Partial, seqNo: int, bs: Bytes)
    requires Accounted(l, p) && 0 <= seqNo < p.sum
    ensures var c := Counted(p, seqNo, bs);
      if TooManyBytes(l, c.totalBytes) && l.drop then Accounted(l, c)
      else Accounted(l, Stored(c, seqNo, bs))
  {
    BytesAfterStore(p.parts, p.sum, seqNo, bs);
  }

  /** Every fragment, accepted or dropped, keeps the accounting of every cached message. */
  lemma CombinedAccounted(l: Limits, interval: real, s: Store, msgId: string, sum: int, seqNo: int, bs: Bytes, now: real)
    requires AllAccounted(l, s) && Usable(s)
    ensures AllAccounted(l, Combined(l, interval, s, msgId, sum, seqNo, bs, now).0)
  {
    hide Accounted, Worked, Combined;
    var s' := Combined(l, interval, s, msgId, sum, seqNo, bs, now).0;
    forall k | k in s'.entries
      ensures Accounted(l, s'.entries[k].0)
    {
      if k != msgId {
        OthersKept(l, interval, s, Arrival(msgId, sum, seqNo, bs, now), k);
      } else {
        OwnAccounted(l, interval, s, msgId, sum, seqNo, bs, now);
      }
    }
  }

  lemma OwnAccounted(l: Limits, interval: real, s: Store, msgId: string, sum: int, seqNo: int, bs: Bytes, now: real)
    requires AllAccounted(l, s) && Usable(s)
    ensures var s' := Combined(l, interval, s, msgId, sum, seqNo, bs, now).0;
      msgId in s'.entries ==> Accounted(l, s'.entries[msgId].0)
  {
    hide Accounted;
    if 1 < sum && 0 <= seqNo < sum {
      var (base, cached) := Current(s, msgId, sum, now);
      NewAccounted(l, sum);
      CountedAccounted(l, base, seqNo, bs);
    }
  }

  lemma NewAccounted(l: Limits, sum: int)
    requires 2 <= sum
    ensures Accounted(l, Partial(sum, map[], 0))
  {
    NoBytes(sum);
  }

  function Step(l: Limits, interval: real, s: Store, a: Arrival): (r: (Store, Option<Bytes>))
    requires Usable(s)
    ensures Usable(r.0)
  {
    Combined(l, interval, s, a.msgId, a.sum, a.seqNo, a.bs, a.now)
  }

  function After(l: Limits, interval: real, s: Store, arrivals: seq<Arrival>): (r: Store)
    requires Usable(s)
    ensures Usable(r)
  {
    if arrivals == [] then s
    else Step(l, interval, After(l, interval, s, arrivals[..|arrivals| - 1]), arrivals[|arrivals| - 1]).0
  }

  lemma {:induction false} AfterAccounted(l: Limits, interval: real, s: Store, arrivals: seq<Arrival>)
    requires AllAccounted(l, s) && Usable(s)
    ensures AllAccounted(l, After(l, interval, s, arrivals))
  {
    hide Combined, Accounted;
    if arrivals != [] {
      var front, a := arrivals[..|arrivals| - 1], arrivals[|arrivals| - 1];
      AfterAccounted(l, interval, s, front);
      CombinedAccounted(l, interval, After(l, interval, s, front), a.msgId, a.sum, a.seqNo, a.bs, a.now);
    }
  }

  /** For every sequence of fragments, from an empty cache and for every cached message: the count is at
      least what is stored; what is stored respects the limit if overflow is dropped; and the count is
      exact if nothing can be dropped. */
  lemma AccountingHolds(l: Limits, interval: real, arrivals: seq<Arrival>, start: real, msgId: string)
    ensures var s := After(l, interval, Store(map[], start), arrivals);
      msgId in s.entries ==>
        var p := s.entries[msgId].0;
        var stored := BytesBelow(p.parts, p.sum);
        && stored <= p.totalBytes
        && (l.drop && l.maxBytes.Some? ==> stored <= l.maxBytes.value)
        && (!l.drop || l.maxBytes.None? ==> stored == p.totalBytes)
  {
    AfterAccounted(l, interval, Store(map[], start), arrivals);
  }

  // ---- when the count is exact ---------------------------------------------------------------------

  ghost predicate Exact(s: Store, msgId: string)
    requires Usable(s)
  {
    msgId in s.entries ==> BytesBelow(s.entries[msgId].0.parts, s.entries[msgId].0.sum) == s.entries[msgId].0.totalBytes
  }

  lemma {:induction false} NothingCached(l: Limits, interval: real, arrivals: seq<Arrival>, start: real)
    requires l.drop && l.maxParts == Some(1)
    ensures After(l, interval, Store(map[], start), arrivals).entries == map[]
  {
    if arrivals != [] {
      NothingCached(l, interval, arrivals[..|arrivals| - 1], start);
    }
  }

  function Zeros(n: nat): (bs: Bytes)
    ensures |bs| == n
  {
    seq(n, _ => 0)
  }

  /** An empty part, then one that is too long: the second is dropped, its bytes stay counted. */
  lemma CountDrifts(l: Limits, interval: real) returns (arrivals: seq<Arrival>)
    requires l.drop && l.maxBytes.Some? && l.maxParts != Some(1)
    ensures !Exact(After(l, interval, Store(map[], 0.0), arrivals), "m")
  {
    hide Join, BytesBelow, AfterGet, Cleared;
    var s0, big := Store(map[], 0.0), Zeros(l.maxBytes.value + 1);
    var a, b := Arrival("m", 2, 0, [], 0.0), Arrival("m", 2, 1, big, 0.0);
    arrivals := [a, b];
    assert arrivals[..1] == [a] && [a][..0] == [];
    var p := Partial(2, map[0 := []], 0);
    var s1 := Step(l, interval, s0, a).0;
    assert s1.entries == map["m" := (p, TTL)] by { FirstKept(l, interval, a); }
    var s2 := Step(l, interval, s1, b).0;
    assert s2.entries == map["m" := (p.(totalBytes := |big|), TTL)] by { SecondDropped(l, interval, s1, p, b); }
    assert After(l, interval, s0, []) == s0 && After(l, interval, s0, [a]) == s1 && After(l, interval, s0, arrivals) == s2;
    assert BytesBelow(p.parts, 2) == 0 by { NoBytesIn(p.parts); }
  }

  lemma FirstKept(l: Limits, interval: real, a: Arrival)
    requires a == Arrival("m", 2, 0, [], 0.0) && l.maxParts != Some(1)
    ensures Step(l, interval, Store(map[], 0.0), a).0.entries == map["m" := (Partial(2, map[0 := []], 0), TTL)]
  {
    hide Join;
  }

  lemma SecondDropped(l: Limits, interval: real, s: Store, p: Partial, b: Arrival)
    requires l.drop && l.maxBytes.Some? && l.maxParts != Some(1) && Usable(s)
    requires p == Partial(2, map[0 := []], 0) && s.entries == map["m" := (p, TTL)]
    requires b.msgId == "m" && b.sum == 2 && b.seqNo == 1 && b.now == 0.0 && |b.bs| == l.maxBytes.value + 1
    ensures Step(l, interval, s, b).0.entries == map["m" := (p.(totalBytes := |b.bs|), TTL)]
  {
    hide Join, Settled;
  }

  lemma NoBytesIn(parts: map<int, Bytes>)
    requires parts == map[0 := []]
    ensures BytesBelow(parts, 2) == 0
  {
    assert BytesBelow(parts, 1) == 0;
  }

  /** The count is exact in every entry after every sequence of fragments if and only if nothing can be
      dropped after it was counted: overflow is only audited, bytes are not limited, or no message of
      two parts is let in. */
  lemma CountExactIff(l: Limits, interval: real)
    ensures !l.drop || l.maxBytes.None? || l.maxParts == Some(1) <==>
      forall arrivals, start, msgId :: Exact(After(l, interval, Store(map[], start), arrivals), msgId)
  {
    hide After, BytesBelow;
    if !l.drop || l.maxBytes.None? || l.maxParts == Some(1) {
      forall arrivals, start, msgId
        ensures Exact(After(l, interval, Store(map[], start), arrivals), msgId)
      {
        if l.drop && l.maxParts == Some(1) {
          NothingCached(l, interval, arrivals, start);
        } else {
          AccountingHolds(l, interval, arrivals, start, msgId);
        }
      }
    } else {
      var arrivals := CountDrifts(l, interval);
    }
  }

  // ---- reassembly --------------------------------------------------------------------------------

  function Payload(pieces: seq<Bytes>): Bytes {
    if pieces == [] then [] else Payload(pieces[..|pieces| - 1]) + pieces[|pieces| - 1]
  }

  function SizeOf(pieces: seq<Bytes>): nat {
    |Payload(pieces)|
  }

  /** The parts `got` of the message are cached and readable until `expire`. */
  ghost predicate Holding(s: Store, msgId: string, pieces: seq<Bytes>, got: set<int>, expire: real, now: real) {
    && Usable(s)
    && if got == {} then Visible(s.entries, msgId, now).None?
       else
         && msgId in s.entries && s.entries[msgId].1 == expire
         && Has(s.entries[msgId].0, pieces, got)
  }

  /** The limits leave room for the whole message. */
  predicate Roomy(l: Limits, pieces: seq<Bytes>) {
    !l.drop || (!TooManyParts(l, |pieces|) && !TooManyBytes(l, SizeOf(pieces)))
  }

  lemma {:induction false} JoinIsPayload(parts: map<int, Bytes>, pieces: seq<Bytes>, n: nat)
    requires n <= |pieces| && forall i :: 0 <= i < n ==> i in parts && parts[i] == pieces[i]
    ensures Join(parts, n) == Payload(pieces[..n])
  {
    if n > 0 {
      JoinIsPayload(parts, pieces, n - 1);
      assert pieces[..n][..n - 1] == pieces[..n - 1];
    }
  }

  lemma {:induction false} BytesFit(parts: map<int, Bytes>, pieces: seq<Bytes>, n: nat)
    requires n <= |pieces| && forall i :: i in parts && 0 <= i < n ==> parts[i] == pieces[i]
    ensures BytesBelow(parts, n) <= SizeOf(pieces[..n])
  {
    if n > 0 {
      BytesFit(parts, pieces, n - 1);
      assert pieces[..n][..n - 1] == pieces[..n - 1];
    }
  }

  /** The parts `got`, and nothing else, with exact accounting. */
  ghost predicate Has(p: Partial, pieces: seq<Bytes>, got: set<int>) {
    && p.sum == |pieces|
    && p.parts.Keys == got
    && (forall i :: i in p.parts ==> 0 <= i < |pieces| && p.parts[i] == pieces[i])
    && p.totalBytes == BytesBelow(p.parts, |pieces|)
  }

  lemma OwnPart(l: Limits, base: Partial, pieces: seq<Bytes>, got: set<int>, i: int)
    requires 2 <= |pieces| && 0 <= i < |pieces| && Roomy(l, pieces) && Has(base, pieces, got)
    ensures var c := Counted(base, i, pieces[i]);
      && !(TooManyBytes(l, c.totalBytes) && l.drop)
      && Has(Stored(c, i, pieces[i]), pieces, got + {i})
      && InRange(Stored(c, i, pieces[i]))
  {
    var p := Stored(Counted(base, i, pieces[i]), i, pieces[i]);
    BytesAfterStore(base.parts, |pieces|, i, pieces[i]);
    BytesFit(p.parts, pieces, |pieces|);
    assert pieces[..|pieces|] == pieces;
  }

  lemma HasAll(p: Partial, pieces: seq<Bytes>, got: set<int>)
    requires 2 <= |pieces| && Has(p, pieces, got) && InRange(p)
    ensures |p.parts| >= |pieces| <==> got == Range(|pieces|)
    ensures got == Range(|pieces|) ==>
      (forall i :: 0 <= i < |pieces| ==> i in p.parts) && Join(p.parts, |pieces|) == Payload(pieces)
  {
    FullHasAll(p);
    if got == Range(|pieces|) {
      JoinIsPayload(p.parts, pieces, |pieces|);
      assert pieces[..|pieces|] == pieces;
    }
  }

  /** One more fragment of the message, any index, new or repeated: nothing comes out until every part
      is there, and then exactly the payload. */
  lemma OwnFragment(l: Limits, interval: real, s: Store, msgId: string, pieces: seq<Bytes>, got: set<int>, expire: real, i: int, now: real)
    requires 2 <= |pieces| && 0 <= i < |pieces| && Roomy(l, pieces)
    requires Holding(s, msgId, pieces, got, expire, now) && (got != {} ==> now <= expire)
    ensures var (s', out) := Combined(l, interval, s, msgId, |pieces|, i, pieces[i], now);
      && out == (if got + {i} == Range(|pieces|) then Some(Payload(pieces)) else None)
      && Holding(s', msgId, pieces, got + {i}, if out.None? then now + TTL else expire, now)
  {
    hide Payload, Join, Range, Roomy, Settled, TooManyBytes, BytesBelow, Counted, Stored;
    var n := |pieces|;
    var (base, cached) := Current(s, msgId, n, now);
    FreshHas(pieces);
    RoomyParts(l, pieces);
    OwnPart(l, base, pieces, got, i);
    var p := Stored(Counted(base, i, pieces[i]), i, pieces[i]);
    var s1 := s.(entries := Through(AfterGet(s.entries, msgId, now), msgId, cached, p));
    OneIsNotAll(i, n);
    assert got == {} ==> got + {i} == {i};
    SettledOwn(interval, s1, msgId, pieces, got + {i}, p, expire, now);
  }

  lemma FreshHas(pieces: seq<Bytes>)
    ensures Has(Partial(|pieces|, map[], 0), pieces, {})
  {
    NoBytes(|pieces|);
  }

  /** Settling an entry that has the parts `got`. */
  lemma SettledOwn(interval: real, s: Store, msgId: string, pieces: seq<Bytes>, got: set<int>, p: Partial, expire: real, now: real)
    requires 2 <= |pieces| && Usable(s) && InRange(p) && Has(p, pieces, got) && got != {}
    requires got == Range(|pieces|) ==> msgId in s.entries && s.entries[msgId] == (p, expire)
    ensures var (s', out) := Settled(interval, s, msgId, p, now);
      && out == (if got == Range(|pieces|) then Some(Payload(pieces)) else None)
      && Holding(s', msgId, pieces, got, if out.None? then now + TTL else expire, now)
  {
    hide Payload, Join, Range;
    HasAll(p, pieces, got);
    assert p.sum == |pieces|;
  }

  lemma RoomyParts(l: Limits, pieces: seq<Bytes>)
    requires Roomy(l, pieces)
    ensures !(TooManyParts(l, |pieces|) && l.drop)
  {
  }

  lemma OneIsNotAll(i: int, n: nat)
    requires 2 <= n
    ensures {i} != Range(n)
  {
    assert 0 in Range(n) && 1 in Range(n);
  }

  /** Fragments of other messages, however malformed, do not disturb the message. */
  lemma OtherFragment(l: Limits, interval: real, s: Store, msgId: string, pieces: seq<Bytes>, got: set<int>, expire: real, a: Arrival, later: real)
    requires Holding(s, msgId, pieces, got, expire, a.now) && a.msgId != msgId
    requires a.now <= later && (got != {} ==> later <= expire)
    ensures Holding(Combined(l, interval, s, a.msgId, a.sum, a.seqNo, a.bs, a.now).0, msgId, pieces, got, expire, later)
  {
    hide Combined, Has, Usable;
    OthersKept(l, interval, s, a, msgId);
  }

  // ---- any order, with repeats and other traffic ---------------------------------------------------

  /** The part numbers of the message that have arrived. */
  ghost function Got(arrivals: seq<Arrival>, msgId: string): set<int> {
    if arrivals == [] then {}
    else
      var a := arrivals[|arrivals| - 1];
      Got(arrivals[..|arrivals| - 1], msgId) + if a.msgId == msgId then {a.seqNo} else {}
  }

  /** Until when the message is kept: every part that leaves it incomplete renews it. */
  ghost function Deadline(arrivals: seq<Arrival>, msgId: string, n: nat): real {
    if arrivals == [] then 0.0
    else
      var a := arrivals[|arrivals| - 1];
      if a.msgId == msgId && Got(arrivals, msgId) != Range(n) then a.now + TTL
      else Deadline(arrivals[..|arrivals| - 1], msgId, n)
  }

  /** The arrivals of this message are fragments of `pieces`; time does not go back; and the message
      does not expire on the way. */
  ghost predicate InTime(arrivals: seq<Arrival>, msgId: string, pieces: seq<Bytes>) {
    && (forall j :: 0 <= j < |arrivals| && arrivals[j].msgId == msgId ==>
         var a := arrivals[j];
         a.sum == |pieces| && 0 <= a.seqNo < |pieces| && a.bs == pieces[a.seqNo])
    && (forall j :: 0 < j < |arrivals| ==> arrivals[j - 1].now <= arrivals[j].now)
    && forall j :: 0 <= j < |arrivals| && Got(arrivals[..j], msgId) != {} ==>
         arrivals[j].now <= Deadline(arrivals[..j], msgId, |pieces|)
  }

  lemma {:induction false} StaysHeld(l: Limits, interval: real, s: Store, arrivals: seq<Arrival>, msgId: string, pieces: seq<Bytes>, k: nat)
    requires 2 <= |pieces| && Roomy(l, pieces) && InTime(arrivals, msgId, pieces) && k < |arrivals|
    requires Usable(s) && forall t :: Visible(s.entries, msgId, t).None?
    ensures Holding(After(l, interval, s, arrivals[..k]), msgId, pieces, Got(arrivals[..k], msgId),
                    Deadline(arrivals[..k], msgId, |pieces|), arrivals[k].now)
  {
    hide Combined, Visible, Has, Roomy, Usable;
    if k == 0 {
      assert arrivals[..0] == [];
    } else {
      StaysHeld(l, interval, s, arrivals, msgId, pieces, k - 1);
      var front, a := arrivals[..k - 1], arrivals[k - 1];
      assert arrivals[..k][..k - 1] == front && arrivals[..k][k - 1] == a;
      var st := After(l, interval, s, front);
      var got, expire := Got(front, msgId), Deadline(front, msgId, |pieces|);
      if a.msgId == msgId {
        OwnFragment(l, interval, st, msgId, pieces, got, expire, a.seqNo, a.now);
      } else {
        assert Got(arrivals[..k], msgId) == got;
        OtherFragment(l, interval, st, msgId, pieces, got, expire, a, arrivals[k].now);
      }
    }
  }

  /** A payload split into two or more fragments, delivered in any order, with repeats and with any
      other traffic in between: nothing comes out until the last missing part arrives, and then, and at
      every later repeat, exactly the payload. */
  lemma Reassembled(l: Limits, interval: real, s: Store, arrivals: seq<Arrival>, msgId: string, pieces: seq<Bytes>, k: nat)
    requires 2 <= |pieces| && Roomy(l, pieces) && InTime(arrivals, msgId, pieces)
    requires k < |arrivals| && arrivals[k].msgId == msgId
    requires Usable(s) && forall t :: Visible(s.entries, msgId, t).None?
    ensures Step(l, interval, After(l, interval, s, arrivals[..k]), arrivals[k]).1 ==
      if Got(arrivals[..k + 1], msgId) == Range(|pieces|) then Some(Payload(pieces)) else None
  {
    StaysHeld(l, interval, s, arrivals, msgId, pieces, k);
    assert arrivals[..k + 1][..k] == arrivals[..k];
    OwnFragment(l, interval, After(l, interval, s, arrivals[..k]), msgId, pieces, Got(arrivals[..k], msgId),
                Deadline(arrivals[..k], msgId, |pieces|), arrivals[k].seqNo, arrivals[k].now);
  }

  // ---- the round trip --------------------------------------------------------------------------------

  /** A payload cut into parts, at ascending positions. */
  ghost predicate CutAt(bs: Bytes, cuts: seq<nat>, pieces: seq<Bytes>) {
    && |cuts| == |pieces| + 1 && cuts[0] == 0 && cuts[|pieces|] == |bs|
    && forall i :: 0 <= i < |pieces| ==> IsPart(bs, cuts, i, pieces[i])
  }

  predicate IsPart(bs: Bytes, cuts: seq<nat>, i: int, part: Bytes) {
    0 <= i < |cuts| - 1 && cuts[i] <= cuts[i + 1] <= |bs| && part == bs[cuts[i]..cuts[i + 1]]
  }

  lemma {:induction false} PayloadOfCuts(bs: Bytes, cuts: seq<nat>, pieces: seq<Bytes>, n: nat)
    requires CutAt(bs, cuts, pieces) && n <= |pieces|
    ensures cuts[n] <= |bs| && Payload(pieces[..n]) == bs[..cuts[n]]
  {
    if n > 0 {
      PayloadOfCuts(bs, cuts, pieces, n - 1);
      assert pieces[..n][..n - 1] == pieces[..n - 1];
      assert IsPart(bs, cuts, n - 1, pieces[n - 1]);
    }
  }

  /** Part `i` of the message is among the arrivals. */
  ghost predicate Came(arrivals: seq<Arrival>, msgId: string, i: int) {
    exists j :: 0 <= j < |arrivals| && arrivals[j].msgId == msgId && arrivals[j].seqNo == i
  }

  lemma {:induction false} GotIs(arrivals: seq<Arrival>, msgId: string)
    ensures forall i :: i in Got(arrivals, msgId) <==> Came(arrivals, msgId, i)
  {
    if arrivals != [] {
      var n, front := |arrivals| - 1, arrivals[..|arrivals| - 1];
      GotIs(front, msgId);
      assert forall j :: 0 <= j < n ==> arrivals[j] == front[j];
      forall i
        ensures i in Got(arrivals, msgId) <==> Came(arrivals, msgId, i)
      {
        if Came(front, msgId, i) {
          var j :| 0 <= j < n && front[j].msgId == msgId && front[j].seqNo == i;
          assert arrivals[j].msgId == msgId && arrivals[j].seqNo == i;
        }
        if arrivals[n].msgId == msgId && arrivals[n].seqNo == i {
          assert Came(arrivals, msgId, i);
        }
      }
    }
  }

  /** A message that is not complete is kept for five seconds from each of its fragments. */
  lemma {:induction false} KeptFiveSeconds(arrivals: seq<Arrival>, msgId: string, n: nat, missing: nat)
    requires missing < n && !Came(arrivals, msgId, missing)
    requires forall j :: 0 < j < |arrivals| ==> arrivals[j - 1].now <= arrivals[j].now
    ensures forall j :: 0 <= j < |arrivals| && arrivals[j].msgId == msgId ==> arrivals[j].now + 5.0 <= Deadline(arrivals, msgId, n)
  {
    if arrivals != [] {
      var front, a := arrivals[..|arrivals| - 1], arrivals[|arrivals| - 1];
      assert forall j :: 0 <= j < |front| ==> front[j] == arrivals[j];
      KeptFiveSeconds(front, msgId, n, missing);
      GotIs(arrivals, msgId);
      assert missing in Range(n) && missing !in Got(arrivals, msgId);
      forall j | 0 <= j < |arrivals| && arrivals[j].msgId == msgId
        ensures arrivals[j].now + 5.0 <= Deadline(arrivals, msgId, n)
      {
        if a.msgId == msgId {
          InOrderOfTime(arrivals, j, |front|);
        } else {
          assert front[j].msgId == msgId;
        }
      }
    }
  }

  lemma {:induction false} InOrderOfTime(arrivals: seq<Arrival>, i: nat, j: nat)
    requires i <= j < |arrivals| && forall k :: 0 < k < |arrivals| ==> arrivals[k - 1].now <= arrivals[k].now
    ensures arrivals[i].now <= arrivals[j].now
  {
    if i < j {
      InOrderOfTime(arrivals, i, j - 1);
      assert arrivals[j - 1].now <= arrivals[j].now;
    }
  }

  /** The arrivals of this message are its parts; time does not go back; and no five seconds pass between
      one of its fragments and the next. */
  ghost predicate Prompt(arrivals: seq<Arrival>, msgId: string, bs: Bytes, cuts: seq<nat>) {
    && (forall j :: 0 <= j < |arrivals| && arrivals[j].msgId == msgId ==>
         arrivals[j].sum == |cuts| - 1 && IsPart(bs, cuts, arrivals[j].seqNo, arrivals[j].bs))
    && (forall j :: 0 < j < |arrivals| ==> arrivals[j - 1].now <= arrivals[j].now)
    && forall i, j :: 0 <= i < j < |arrivals| && arrivals[i].msgId == msgId ==> SoonAfter(arrivals, msgId, j)
  }

  ghost predicate SoonAfter(arrivals: seq<Arrival>, msgId: string, j: nat)
    requires j < |arrivals|
  {
    exists i :: 0 <= i < j && arrivals[i].msgId == msgId && arrivals[j].now <= arrivals[i].now + 5.0
  }

  lemma PromptIsInTime(arrivals: seq<Arrival>, msgId: string, bs: Bytes, cuts: seq<nat>, pieces: seq<Bytes>, missing: nat)
    requires CutAt(bs, cuts, pieces) && Prompt(arrivals, msgId, bs, cuts) && arrivals != []
    requires missing < |pieces| && !Came(arrivals[..|arrivals| - 1], msgId, missing)
    ensures InTime(arrivals, msgId, pieces)
  {
    hide Deadline, Range, Came, SoonAfter, Got;
    forall j | 0 <= j < |arrivals| && Got(arrivals[..j], msgId) != {}
      ensures arrivals[j].now <= Deadline(arrivals[..j], msgId, |pieces|)
    {
      CameBefore(arrivals, msgId, missing, j);
      PromptAt(arrivals, msgId, |pieces|, missing, j);
    }
    forall j | 0 <= j < |arrivals| && arrivals[j].msgId == msgId
      ensures arrivals[j].bs == pieces[arrivals[j].seqNo]
    {
      assert IsPart(bs, cuts, arrivals[j].seqNo, arrivals[j].bs) && IsPart(bs, cuts, arrivals[j].seqNo, pieces[arrivals[j].seqNo]);
    }
  }

  lemma {:induction false} SomethingCame(arrivals: seq<Arrival>, msgId: string)
    requires Got(arrivals, msgId) != {}
    ensures exists f :: 0 <= f < |arrivals| && arrivals[f].msgId == msgId
  {
    var n, front := |arrivals| - 1, arrivals[..|arrivals| - 1];
    if arrivals[n].msgId != msgId {
      SomethingCame(front, msgId);
      var f :| 0 <= f < n && front[f].msgId == msgId;
      assert arrivals[f].msgId == msgId;
    }
  }

  lemma PromptAt(arrivals: seq<Arrival>, msgId: string, n: nat, missing: nat, j: nat)
    requires j < |arrivals| && missing < n && !Came(arrivals[..j], msgId, missing) && Got(arrivals[..j], msgId) != {}
    requires forall k :: 0 < k < |arrivals| ==> arrivals[k - 1].now <= arrivals[k].now
    requires forall i :: 0 <= i < j && arrivals[i].msgId == msgId ==> SoonAfter(arrivals, msgId, j)
    ensures arrivals[j].now <= Deadline(arrivals[..j], msgId, n)
  {
    hide Deadline, Got;
    var front := arrivals[..j];
    SomethingCame(front, msgId);
    var f :| 0 <= f < j && front[f].msgId == msgId;
    assert arrivals[f].msgId == msgId;
    var i :| 0 <= i < j && arrivals[i].msgId == msgId && arrivals[j].now <= arrivals[i].now + 5.0;
    assert forall k :: 0 <= k < j ==> front[k] == arrivals[k];
    KeptFiveSeconds(front, msgId, n, missing);
    assert front[i].msgId == msgId;
  }

  lemma CameBefore(arrivals: seq<Arrival>, msgId: string, i: int, j: nat)
    requires j < |arrivals|
    ensures Came(arrivals[..j], msgId, i) ==> Came(arrivals[..|arrivals| - 1], msgId, i)
  {
    var front := arrivals[..|arrivals| - 1];
    if Came(arrivals[..j], msgId, i) {
      var k :| 0 <= k < j && arrivals[..j][k].msgId == msgId && arrivals[..j][k].seqNo == i;
      assert front[k] == arrivals[..j][k];
    }
  }

  /** The round trip: a payload of any length, cut anywhere into two parts or more that the limits allow,
      whose fragments come in any order, repeated, among any other traffic, never five seconds apart: as
      long as a part is missing nothing comes out, and the last missing one brings exactly the payload. */
  lemma RoundTrip(l: Limits, interval: real, s: Store, arrivals: seq<Arrival>, msgId: string, bs: Bytes, cuts: seq<nat>, pieces: seq<Bytes>, missing: nat)
    requires CutAt(bs, cuts, pieces) && 2 <= |pieces| && Prompt(arrivals, msgId, bs, cuts)
    requires l.drop ==> (l.maxParts.Some? ==> |pieces| <= l.maxParts.value) && (l.maxBytes.Some? ==> |bs| <= l.maxBytes.value)
    requires arrivals != [] && arrivals[|arrivals| - 1].msgId == msgId
    requires missing < |pieces| && !Came(arrivals[..|arrivals| - 1], msgId, missing)
    requires Usable(s) && forall t :: Visible(s.entries, msgId, t).None?
    ensures Step(l, interval, After(l, interval, s, arrivals[..|arrivals| - 1]), arrivals[|arrivals| - 1]).1 ==
      if forall i :: 0 <= i < |pieces| ==> Came(arrivals, msgId, i) then Some(bs) else None
  {
    hide Payload, After, Step, Came, Prompt, InTime, CutAt, Range;
    var k := |arrivals| - 1;
    assert Payload(pieces) == bs by { WholePayload(bs, cuts, pieces); }
    PromptIsInTime(arrivals, msgId, bs, cuts, pieces, missing);
    Reassembled(l, interval, s, arrivals, msgId, pieces, k);
    assert arrivals[..k + 1] == arrivals;
    GotIs(arrivals, msgId);
    GotInRange(arrivals, msgId, pieces);
    if forall i :: 0 <= i < |pieces| ==> Came(arrivals, msgId, i) {
      assert Got(arrivals, msgId) == Range(|pieces|);
    }
  }

  lemma WholePayload(bs: Bytes, cuts: seq<nat>, pieces: seq<Bytes>)
    requires CutAt(bs, cuts, pieces)
    ensures Payload(pieces) == bs
  {
    PayloadOfCuts(bs, cuts, pieces, |pieces|);
    assert pieces[..|pieces|] == pieces && bs[..|bs|] == bs;
  }

  lemma GotInRange(arrivals: seq<Arrival>, msgId: string, pieces: seq<Bytes>)
    requires InTime(arrivals, msgId, pieces)
    ensures forall i :: i in Got(arrivals, msgId) ==> i in Range(|pieces|)
  {
    GotIs(arrivals, msgId);
  }

  // ---- what never comes out ----------------------------------------------------------------------------

  lemma {:induction false} JoinedBytes(parts: map<int, Bytes>, n: nat)
    requires forall i :: 0 <= i < n ==> i in parts
    ensures |Join(parts, n)| == BytesBelow(parts, n)
  {
    if n > 0 {
      JoinedBytes(parts, n - 1);
    }
  }

  lemma OutputOf(l: Limits, interval: real, s: Store, a: Arrival)
    requires AllAccounted(l, s) && Usable(s) && 1 < a.sum && Step(l, interval, s, a).1.Some?
    ensures l.drop && l.maxParts.Some? ==> a.sum <= l.maxParts.value
    ensures l.drop && l.maxBytes.Some? ==> |Step(l, interval, s, a).1.value| <= l.maxBytes.value
  {
    hide Accounted, Join;
    var (base, cached) := Current(s, a.msgId, a.sum, a.now);
    NewAccounted(l, a.sum);
    CountedAccounted(l, base, a.seqNo, a.bs);
    var p := Stored(Counted(base, a.seqNo, a.bs), a.seqNo, a.bs);
    AccountedFits(l, p);
  }

  lemma AccountedFits(l: Limits, p: Partial)
    requires InRange(p)
    ensures |p.parts| >= p.sum && Accounted(l, p) && l.drop && l.maxBytes.Some? ==>
      (forall i :: 0 <= i < p.sum ==> i in p.parts) && |Join(p.parts, p.sum)| <= l.maxBytes.value
  {
    FullHasAll(p);
    if |p.parts| >= p.sum {
      JoinedBytes(p.parts, p.sum);
    }
  }

  /** When overflow is dropped, nothing that was put together from fragments exceeds a limit, over every
      sequence of fragments. */
  lemma OutputFits(l: Limits, interval: real, arrivals: seq<Arrival>, start: real, a: Arrival)
    requires l.drop && 1 < a.sum && Step(l, interval, After(l, interval, Store(map[], start), arrivals), a).1.Some?
    ensures var out := Step(l, interval, After(l, interval, Store(map[], start), arrivals), a).1.value;
      (l.maxParts.Some? ==> a.sum <= l.maxParts.value) && (l.maxBytes.Some? ==> |out| <= l.maxBytes.value)
  {
    hide Step;
    AfterAccounted(l, interval, Store(map[], start), arrivals);
    OutputOf(l, interval, After(l, interval, Store(map[], start), arrivals), a);
  }

  /** An entry lives five seconds from some fragment of its message. */
  lemma {:induction false} LivesFiveSeconds(l: Limits, interval: real, arrivals: seq<Arrival>, start: real, msgId: string)
    ensures var s := After(l, interval, Store(map[], start), arrivals);
      msgId in s.entries ==> exists j :: 0 <= j < |arrivals| && arrivals[j].msgId == msgId && s.entries[msgId].1 == arrivals[j].now + 5.0
  {
    if arrivals != [] {
      hide Worked;
      var n, front, a := |arrivals| - 1, arrivals[..|arrivals| - 1], arrivals[|arrivals| - 1];
      LivesFiveSeconds(l, interval, front, start, msgId);
      var s0 := After(l, interval, Store(map[], start), front);
      var s := After(l, interval, Store(map[], start), arrivals);
      ExpiryNext(l, interval, s0, a, msgId);
      if msgId in s.entries {
        if msgId in s0.entries && s.entries[msgId].1 == s0.entries[msgId].1 {
          var j :| 0 <= j < n && front[j].msgId == msgId && s0.entries[msgId].1 == front[j].now + 5.0;
          assert arrivals[j] == front[j];
        } else {
          assert arrivals[n] == a;
        }
      }
    }
  }

  lemma ExpiryNext(l: Limits, interval: real, s: Store, a: Arrival, msgId: string)
    requires Usable(s)
    ensures var s' := Step(l, interval, s, a).0;
      msgId in s'.entries ==>
        (msgId in s.entries && s'.entries[msgId].1 == s.entries[msgId].1) || (a.msgId == msgId && s'.entries[msgId].1 == a.now + 5.0)
  {
    hide Join, Counted, Stored;
    if a.msgId != msgId {
      OthersKept(l, interval, s, a, msgId);
    }
  }

  /** A message whose fragments stalled for more than five seconds starts over: the next fragment brings
      nothing out. */
  lemma StalledStartsOver(l: Limits, interval: real, arrivals: seq<Arrival>, start: real, a: Arrival)
    requires 1 < a.sum && forall j :: 0 <= j < |arrivals| && arrivals[j].msgId == a.msgId ==> arrivals[j].now + 5.0 < a.now
    ensures Step(l, interval, After(l, interval, Store(map[], start), arrivals), a).1 == None
  {
    hide After, Join;
    LivesFiveSeconds(l, interval, arrivals, start, a.msgId);
    var s := After(l, interval, Store(map[], start), arrivals);
    assert Visible(s.entries, a.msgId, a.now).None?;
    assert Current(s, a.msgId, a.sum, a.now) == (Partial(a.sum, map[], 0), false);
  }

  lemma ThroughTwice(entries: Entries<Partial>, msgId: string, cached: bool, p: Partial, q: Partial)
    ensures Through(Through(entries, msgId, cached, p), msgId, cached, q) == Through(entries, msgId, cached, q)
  {
  }

  lemma WorkedDrop(l: Limits, interval: real, s: Store, msgId: string, sum: int, seqNo: int, bs: Bytes, now: real, base: Partial, cached: bool)
    requires Usable(s) && 0 <= seqNo < sum && 2 <= sum && (base, cached) == Current(s, msgId, sum, now)
    ensures var entries := AfterGet(s.entries, msgId, now);
      var counted := Counted(base, seqNo, bs);
      var p := Stored(counted, seqNo, bs);
      && InRange(p) && p.sum == sum
      && var s1 := s.(entries := Through(entries, msgId, cached, p));
      && Usable(s1)
      && Worked(l, interval, s, msgId, sum, seqNo, bs, now) ==
        if TooManyBytes(l, counted.totalBytes) && l.drop then (s.(entries := Through(entries, msgId, cached, counted)), None)
        else Settled(interval, s1, msgId, p, now)
  {
    hide Settled;
    assert InRange(base);
  }

  // ---- the objects ---------------------------------------------------------------------------------

  /** The cached dictionary of one message, changed in place. */
  class Entry {
    var sum: int
    var parts: map<int, Bytes>
    var totalBytes: int

    constructor (sum: int)
      ensures Value() == Partial(sum, map[], 0)
    {
      this.sum, parts, totalBytes := sum, map[], 0;
    }

    function Value(): Partial
      reads this
    {
      Partial(sum, parts, totalBytes)
    }
  }

  /** What the cached objects stand for at the moment. */
  ghost function Values(c: Entries<Entry>): Entries<Partial>
    reads set k | k in c :: c[k].0
  {
    map k | k in c :: (c[k].0.Value(), c[k].1)
  }

  lemma ValuesPut(c: Entries<Entry>, swept: bool, msgId: string, val: Entry, now: real, until: real)
    ensures Values((if swept then Cleared(c, now) else c)[msgId := (val, until)]) ==
      (if swept then Cleared(Values(c), now) else Values(c))[msgId := (val.Value(), until)]
  {
  }

  ghost predicate Apart(c: Entries<Entry>) {
    forall i, j :: i in c && j in c && i != j ==> c[i].0 != c[j].0
  }

  /** Putting an entry under its own message keeps the entries apart. */
  lemma PutApart(c: Entries<Entry>, kept: Entries<Entry>, msgId: string, val: Entry, until: real)
    requires Apart(c) && (kept == c || exists now :: kept == Cleared(c, now))
    requires forall k :: k in c && k != msgId ==> c[k].0 != val
    ensures Apart(kept[msgId := (val, until)])
  {
    assert forall k :: k in kept ==> k in c && kept[k] == c[k];
  }

  /** The cached values after an entry was put back. */
  function Renewed(st: Store, msgId: string, p: Partial, now: real, interval: real): Store {
    var swept := now - st.lastClear >= interval;
    Store((if swept then Cleared(st.entries, now) else st.entries)[msgId := (p, now + TTL)], if swept then now else st.lastClear)
  }

  lemma UsableKept(st: Store, msgId: string, p: Partial, now: real, interval: real)
    requires Usable(st) && InRange(p)
    ensures Usable(Renewed(st, msgId, p, now, interval))
  {
  }

  class Reassembler {
    const limits: Limits
    const cache: ExpiringCache<Entry>

    ghost function Objects(): set<Entry>
      reads this, cache
    {
      set k | k in cache.cache :: cache.cache[k].0
    }

    /** The cached values. */
    ghost function View(): Store
      reads this, cache, Objects()
    {
      Store(Values(cache.cache), cache.lastClear)
    }

    /** Different messages have different entries. */
    ghost predicate Valid()
      reads this, cache, Objects()
    {
      Usable(View()) && Apart(cache.cache)
    }

    constructor (limits: Limits, clearInterval: real, now: real)
      ensures Valid() && fresh(cache) && View() == Store(map[], now)
      ensures this.limits == limits && cache.clearInterval == clearInterval
    {
      this.limits := limits;
      cache := new ExpiringCache<Entry>(clearInterval, now);
    }

    /** `_combine`; the security audit records are left out. */
    method Combine(msgId: string, sum: int, seqNo: int, bs: Bytes, now: real) returns (r: Option<Bytes>)
      requires Valid()
      modifies cache, Objects()
      ensures Valid() && fresh(Objects() - old(Objects()))
      ensures (View(), r) == Combined(limits, cache.clearInterval, old(View()), msgId, sum, seqNo, bs, now)
      // A message of one part comes out at once. A part that is out of range, or of a message of too many
      // parts if overflow is dropped, is ignored.
      ensures sum <= 1 ==> r == Some(bs) && View() == old(View())
      ensures 1 < sum && (seqNo < 0 || seqNo >= sum || (limits.drop && limits.maxParts.Some? && sum > limits.maxParts.value)) ==>
        r == None && View() == old(View())
    {
      if sum <= 1 {
        return Some(bs);
      }
      if seqNo < 0 || seqNo >= sum {
        return None;
      }
      if TooManyParts(limits, sum) {
        if limits.drop {
          return None;
        }
      }
      r := Work(msgId, sum, seqNo, bs, now);
    }

    lemma ViewUsable()
      requires Valid()
      ensures Usable(View())
    {
    }

    method Work(msgId: string, sum: int, seqNo: int, bs: Bytes, now: real) returns (r: Option<Bytes>)
      requires Valid() && 0 <= seqNo < sum && 2 <= sum
      modifies cache, Objects()
      ensures Valid() && fresh(Objects() - old(Objects()))
      ensures (View(), r) == Worked(limits, cache.clearInterval, old(View()), msgId, sum, seqNo, bs, now)
    {
      hide Current, AfterGet, InRange, Valid, View, Settled, Through, Tied, TooManyBytes, Usable, Worked, Counted, Stored;
      ghost var s0 := View();
      ViewUsable();
      var val, cached := Fetch(msgId, sum, now);
      ghost var base := val.Value();
      CountBytes(val, cached, msgId, seqNo, bs);
      ghost var s1, counted := View(), val.Value();
      WorkedDrop(limits, cache.clearInterval, s0, msgId, sum, seqNo, bs, now, base, cached);
      if TooManyBytes(limits, val.totalBytes) {
        if limits.drop {
          return None;
        }
      }
      StorePart(val, cached, msgId, seqNo, bs);
      ThroughTwice(AfterGet(s0.entries, msgId, now), msgId, cached, counted, val.Value());
      r := Settle(val, cached, msgId, now);
    }

    method Settle(val: Entry, ghost cached: bool, msgId: string, now: real) returns (r: Option<Bytes>)
      requires Valid() && Tied(val, cached, msgId) && InRange(val.Value())
      modifies cache
      ensures Valid() && Objects() <= old(Objects()) + {val}
      ensures (View(), r) == Settled(cache.clearInterval, old(View()), msgId, val.Value(), now)
    {
      hide InRange, Valid, View, Join, Cleared, Tied, Usable;
      if |val.parts| < val.sum {
        Keep(val, cached, msgId, now);
        return None;
      }
      FullHasAll(val.Value());
      return Some(Join(val.parts, val.sum));
    }

    /** `val` is the cached entry of the message, or it is not cached at all. */
    ghost predicate Tied(val: Entry, cached: bool, msgId: string)
      reads this, cache
    {
      && (cached ==> msgId in cache.cache && cache.cache[msgId].0 == val)
      && forall k :: k in cache.cache && (k != msgId || !cached) ==> cache.cache[k].0 != val
    }

    /** The cached entry of the message, or a new one that is not cached yet. */
    method Fetch(msgId: string, sum: int, now: real) returns (val: Entry, ghost cached: bool)
      requires Valid() && 2 <= sum
      modifies cache`cache
      ensures Valid() && Objects() <= old(Objects()) && Tied(val, cached, msgId)
      ensures val in old(Objects()) || fresh(val)
      ensures View() == old(View()).(entries := AfterGet(old(View().entries), msgId, now))
      ensures (val.Value(), cached) == Current(old(View()), msgId, sum, now)
      ensures InRange(val.Value()) && val.sum == sum
    {
      ghost var view := View();
      var got := cache.Get(msgId, now);
      assert View().entries == AfterGet(view.entries, msgId, now);
      if got.Some? && got.value.sum == sum {
        val := got.value;
        cached := true;
      } else {
        val := new Entry(sum);
        cached := false;
        assert View().entries == AfterGet(view.entries, msgId, now);
      }
    }

    method CountBytes(val: Entry, ghost cached: bool, msgId: string, seqNo: int, bs: Bytes)
      requires Valid() && Tied(val, cached, msgId) && InRange(val.Value())
      modifies val`totalBytes
      ensures Valid() && InRange(val.Value()) && val.Value() == Counted(old(val.Value()), seqNo, bs)
      ensures View() == old(View()).(entries := Through(old(View().entries), msgId, cached, val.Value()))
    {
      var replaced := if seqNo in val.parts then |val.parts[seqNo]| else 0;
      val.totalBytes := val.totalBytes + |bs| - replaced;
    }

    method StorePart(val: Entry, ghost cached: bool, msgId: string, seqNo: int, bs: Bytes)
      requires Valid() && Tied(val, cached, msgId) && InRange(val.Value()) && 0 <= seqNo < val.sum
      modifies val`parts
      ensures Valid() && val.Value() == Stored(old(val.Value()), seqNo, bs) && InRange(val.Value())
      ensures View() == old(View()).(entries := Through(old(View().entries), msgId, cached, val.Value()))
    {
      val.parts := val.parts[seqNo := bs];
    }

    method Keep(val: Entry, ghost cached: bool, msgId: string, now: real)
      requires Valid() && Tied(val, cached, msgId) && InRange(val.Value())
      modifies cache
      ensures Valid() && Objects() <= old(Objects()) + {val}
      ensures var swept := now - old(View().lastClear) >= cache.clearInterval;
        var kept := old(View().entries);
        View() == Store((if swept then Cleared(kept, now) else kept)[msgId := (val.Value(), now + TTL)],
                        if swept then now else old(View().lastClear))
    {
      hide Usable, InRange;
      UsableKept(View(), msgId, val.Value(), now, cache.clearInterval);
      Put(val, cached, msgId, now);
    }

    method Put(val: Entry, ghost cached: bool, msgId: string, now: real)
      requires Apart(cache.cache) && Tied(val, cached, msgId)
      modifies cache
      ensures Apart(cache.cache) && Objects() <= old(Objects()) + {val}
      ensures View() == Renewed(old(View()), msgId, val.Value(), now, cache.clearInterval)
    {
      hide Visible, SameFrom, Apart, Values, Cleared, Tied;
      ghost var swept := now - cache.lastClear >= cache.clearInterval;
      ghost var kept := if swept then Cleared(cache.cache, now) else cache.cache;
      assert forall k :: k in cache.cache && k != msgId ==> cache.cache[k].0 != val by { TiedMeans(val, cached, msgId); }
      PutApart(cache.cache, kept, msgId, val, now + TTL);
      ValuesPut(cache.cache, swept, msgId, val, now, now + TTL);
      KeptObjects(kept, now);
      cache.Set(msgId, val, TTL, now);
    }

    lemma TiedMeans(val: Entry, cached: bool, msgId: string)
      requires Tied(val, cached, msgId)
      ensures forall k :: k in cache.cache && k != msgId ==> cache.cache[k].0 != val
    {
    }

    lemma KeptObjects(kept: Entries<Entry>, now: real)
      requires kept == cache.cache || kept == Cleared(cache.cache, now)
      ensures forall k :: k in kept ==> kept[k].0 in Objects()
    {
    }
  }
}
