/** Media batching: consecutive media messages of one conversation and kind are handed on together.

    A step is what happens between two suspension points. Handing a batch to the handler is the last
    thing a flush does, so a handler that suspends leaves nothing half done here. What other coroutines
    and the event loop do during a hand-over is a parameter. */
module MediaPipeline {
  import opened Wrappers

  /** The parts of a message that decide where it is batched. */
  datatype Media = Media(id: nat, chatId: string, kind: string, replyTo: Option<string>, threadId: string)

  datatype Key = Key(chatId: string, kind: string, replyTo: string, threadId: string)

  function KeyOf(m: Media): Key {
    Key(m.chatId, m.kind, if m.replyTo.Some? then m.replyTo.value else "", m.threadId)
  }

  /** The message handed on, and the batch attached to it. */
  datatype Carrier = Carrier(message: Media, batched: seq<Media>)

  /** A batch of one goes as it is; otherwise the last message carries all of them. */
  function Attach(sources: seq<Media>): (c: Carrier)
    requires sources != []
    ensures c.message == sources[|sources| - 1] && SourcesOf(c) == sources
  {
    if |sources| == 1 then Carrier(sources[0], []) else Carrier(sources[|sources| - 1], sources)
  }

  /** What a consumer reads off a carrier. */
  function SourcesOf(c: Carrier): seq<Media> {
    if c.batched == [] then [c.message] else c.batched
  }

  datatype Bucket = Bucket(sources: seq<Media>, timer: Option<nat>)

  datatype Handed = Handed(handler: nat, key: Key, carrier: Carrier)

  // ---- the account of one key ----------------------------------------------------------------------

  function PushesOf(pushes: seq<Media>, key: Key): seq<Media> {
    if pushes == [] then []
    else
      var m := pushes[|pushes| - 1];
      PushesOf(pushes[..|pushes| - 1], key) + if KeyOf(m) == key then [m] else []
  }

  function HandedOf(handed: seq<Handed>, key: Key): seq<Media> {
    if handed == [] then []
    else
      var h := handed[|handed| - 1];
      HandedOf(handed[..|handed| - 1], key) + if h.key == key then SourcesOf(h.carrier) else []
  }

  function Waiting(buckets: map<Key, Bucket>, key: Key): seq<Media> {
    if key in buckets then buckets[key].sources else []
  }

  /** Per key: what was handed on, followed by what waits, is what was pushed, in order. */
  ghost predicate Conserved(pushes: seq<Media>, handed: seq<Handed>, buckets: map<Key, Bucket>) {
    forall key :: HandedOf(handed, key) + Waiting(buckets, key) == PushesOf(pushes, key)
  }

  lemma PushesOfSnoc(pushes: seq<Media>, m: Media, key: Key)
    ensures PushesOf(pushes + [m], key) == PushesOf(pushes, key) + if KeyOf(m) == key then [m] else []
  {
    assert (pushes + [m])[..|pushes|] == pushes;
  }

  lemma PushConserves(pushes: seq<Media>, handed: seq<Handed>, buckets: map<Key, Bucket>, m: Media, timer: Option<nat>)
    requires Conserved(pushes, handed, buckets)
    ensures Conserved(pushes + [m], handed,
      buckets[KeyOf(m) := Bucket(Waiting(buckets, KeyOf(m)) + [m], timer)])
  {
    var buckets' := buckets[KeyOf(m) := Bucket(Waiting(buckets, KeyOf(m)) + [m], timer)];
    hide PushesOf, HandedOf, KeyOf;
    forall key
      ensures HandedOf(handed, key) + Waiting(buckets', key) == PushesOf(pushes + [m], key)
    {
      PushesOfSnoc(pushes, m, key);
      assert HandedOf(handed, key) + Waiting(buckets, key) == PushesOf(pushes, key);
    }
  }

  lemma FlushConserves(pushes: seq<Media>, handed: seq<Handed>, buckets: map<Key, Bucket>, key: Key, handler: nat)
    requires Conserved(pushes, handed, buckets) && key in buckets && buckets[key].sources != []
    ensures Conserved(pushes, handed + [Handed(handler, key, Attach(buckets[key].sources))], buckets - {key})
  {
    var h := Handed(handler, key, Attach(buckets[key].sources));
    assert (handed + [h])[..|handed|] == handed;
    forall k
      ensures HandedOf(handed + [h], k) + Waiting(buckets - {key}, k) == PushesOf(pushes, k)
    {
      assert HandedOf(handed, k) + Waiting(buckets, k) == PushesOf(pushes, k);
    }
  }

  /** A batch holds messages of one key only. */
  ghost predicate Sorted(buckets: map<Key, Bucket>) {
    forall key, k :: key in buckets && 0 <= k < |buckets[key].sources| ==> KeyOf(buckets[key].sources[k]) == key
  }

  /** And so does everything that was handed on. */
  ghost predicate SortedOut(handed: seq<Handed>) {
    forall i, m :: 0 <= i < |handed| && m in SourcesOf(handed[i].carrier) ==> KeyOf(m) == handed[i].key
  }

  lemma SortedFlush(buckets: map<Key, Bucket>, handed: seq<Handed>, key: Key, handler: nat)
    requires Sorted(buckets) && SortedOut(handed) && key in buckets && buckets[key].sources != []
    ensures SortedOut(handed + [Handed(handler, key, Attach(buckets[key].sources))])
  {
    hide KeyOf, Attach;
  }

  // ---- messages instead of keys ----------------------------------------------------------------------

  /** Two messages belong together: same chat, kind, thread, and the same message replied to, if any. */
  predicate Alike(a: Media, b: Media) {
    && a.chatId == b.chatId && a.kind == b.kind && a.threadId == b.threadId
    && (a.replyTo == b.replyTo || (a.replyTo in {None, Some("")} && b.replyTo in {None, Some("")}))
  }

  lemma AlikeIff(a: Media, b: Media)
    ensures KeyOf(a) == KeyOf(b) <==> Alike(a, b)
    ensures KeyOf(a).chatId == a.chatId
  {
  }

  /** Every message that was handed on, in order. */
  function Delivered(handed: seq<Handed>): seq<Media> {
    if handed == [] then [] else Delivered(handed[..|handed| - 1]) + SourcesOf(handed[|handed| - 1].carrier)
  }

  lemma {:induction false} CountPushed(pushes: seq<Media>, m: Media)
    ensures multiset(PushesOf(pushes, KeyOf(m)))[m] == multiset(pushes)[m]
  {
    if pushes != [] {
      CountPushed(pushes[..|pushes| - 1], m);
      assert pushes == pushes[..|pushes| - 1] + [pushes[|pushes| - 1]];
    }
  }

  lemma {:induction false} CountHanded(handed: seq<Handed>, key: Key, m: Media)
    ensures multiset(HandedOf(handed, key))[m] <= multiset(Delivered(handed))[m]
    ensures SortedOut(handed) && key == KeyOf(m) ==> multiset(HandedOf(handed, key))[m] == multiset(Delivered(handed))[m]
  {
    if handed != [] {
      hide SourcesOf, KeyOf;
      var front, last := handed[..|handed| - 1], handed[|handed| - 1];
      CountHanded(front, key, m);
      assert SortedOut(handed) ==> SortedOut(front) && (m in SourcesOf(last.carrier) ==> KeyOf(m) == last.key);
    }
  }

  /** What was caught up with has been delivered, as often as it was pushed. */
  lemma CaughtUpDelivers(pushes: seq<Media>, handed: seq<Handed>, m: Media)
    requires CaughtUp(pushes, handed, KeyOf(m))
    ensures multiset(pushes)[m] <= multiset(Delivered(handed))[m]
  {
    hide KeyOf, PushesOf, HandedOf, Delivered;
    var a, b := PushesOf(pushes, KeyOf(m)), HandedOf(handed, KeyOf(m));
    CountPushed(pushes, m);
    CountHanded(handed, KeyOf(m), m);
    assert b == a + b[|a|..];
  }

  lemma ChatDelivered(pushes: seq<Media>, handed: seq<Handed>, chatId: string)
    requires forall key: Key :: key.chatId == chatId ==> CaughtUp(pushes, handed, key)
    ensures forall m :: m in pushes && m.chatId == chatId ==> multiset(pushes)[m] <= multiset(Delivered(handed))[m]
  {
    hide CaughtUp, Delivered;
    forall m | m in pushes && m.chatId == chatId
      ensures multiset(pushes)[m] <= multiset(Delivered(handed))[m]
    {
      AlikeIff(m, m);
      CaughtUpDelivers(pushes, handed, m);
    }
  }

  // ---- timers --------------------------------------------------------------------------------------

  /** Every bucket is non-empty and will be flushed: its timer is armed or a flush task is on its way.
      Every armed timer is the timer of its bucket. */
  ghost predicate Timed(buckets: map<Key, Bucket>, armed: map<nat, Key>, timersMade: nat, spawned: multiset<Key>) {
    && (forall key :: key in buckets ==> buckets[key].sources != [] && Due(buckets[key], key, armed, spawned))
    && (forall key :: key in buckets ==> Own(buckets[key].timer, key, armed, timersMade))
    && (forall t :: t in armed ==> t < timersMade && armed[t] in buckets && buckets[armed[t]].timer == Some(t))
  }

  /** A timer that has fired is not used again. */
  predicate Own(timer: Option<nat>, key: Key, armed: map<nat, Key>, timersMade: nat) {
    timer.Some? ==> timer.value < timersMade && (timer.value in armed ==> armed[timer.value] == key)
  }

  predicate Due(b: Bucket, key: Key, armed: map<nat, Key>, spawned: multiset<Key>) {
    (b.timer.Some? && b.timer.value in armed && armed[b.timer.value] == key) || key in spawned
  }

  function Disarmed(armed: map<nat, Key>, timer: Option<nat>): map<nat, Key> {
    if timer.Some? then armed - {timer.value} else armed
  }

  lemma TimedPush(buckets: map<Key, Bucket>, armed: map<nat, Key>, timersMade: nat, spawned: multiset<Key>, key: Key, sources: seq<Media>)
    requires Timed(buckets, armed, timersMade, spawned) && sources != []
    ensures var armed' := if key in buckets then Disarmed(armed, buckets[key].timer) else armed;
      && timersMade !in armed'
      && Timed(buckets[key := Bucket(sources, Some(timersMade))], armed'[timersMade := key], timersMade + 1, spawned)
  {
    var buckets' := buckets[key := Bucket(sources, Some(timersMade))];
    var armed' := (if key in buckets then Disarmed(armed, buckets[key].timer) else armed)[timersMade := key];
    forall k | k in buckets'
      ensures Due(buckets'[k], k, armed', spawned)
    {
      assert k != key ==> Due(buckets[k], k, armed, spawned);
    }
  }

  lemma TimedFlush(buckets: map<Key, Bucket>, armed: map<nat, Key>, timersMade: nat, spawned: multiset<Key>, spawned': multiset<Key>, key: Key)
    requires Timed(buckets, armed, timersMade, spawned) && key in buckets
    requires forall k :: k in spawned && k != key ==> k in spawned'
    ensures Timed(buckets - {key}, Disarmed(armed, buckets[key].timer), timersMade, spawned')
  {
    var armed' := Disarmed(armed, buckets[key].timer);
    forall k | k in buckets - {key}
      ensures Due(buckets[k], k, armed', spawned')
    {
      assert Due(buckets[k], k, armed, spawned);
    }
  }

  lemma TimedFire(buckets: map<Key, Bucket>, armed: map<nat, Key>, timersMade: nat, spawned: multiset<Key>, t: nat)
    requires Timed(buckets, armed, timersMade, spawned) && t in armed
    ensures Timed(buckets, armed - {t}, timersMade, spawned + multiset{armed[t]})
  {
    var armed', spawned' := armed - {t}, spawned + multiset{armed[t]};
    forall k | k in buckets
      ensures Due(buckets[k], k, armed', spawned')
    {
      assert Due(buckets[k], k, armed, spawned);
    }
  }

  /** Nothing is forgotten: once no timer is armed and no flush is on its way, nothing waits. */
  lemma QuietMeansHandedOn(pushes: seq<Media>, handed: seq<Handed>, buckets: map<Key, Bucket>, armed: map<nat, Key>, timersMade: nat, spawned: multiset<Key>, key: Key)
    requires Timed(buckets, armed, timersMade, spawned) && Conserved(pushes, handed, buckets)
    requires armed == map[] && spawned == multiset{}
    ensures HandedOf(handed, key) == PushesOf(pushes, key)
  {
    assert HandedOf(handed, key) + Waiting(buckets, key) == PushesOf(pushes, key);
    assert forall b: Bucket :: !Due(b, key, armed, spawned);
  }

  lemma {:induction false} HandedMonotone(a: seq<Handed>, b: seq<Handed>, key: Key)
    requires a <= b
    ensures HandedOf(a, key) <= HandedOf(b, key)
  {
    if |a| < |b| {
      HandedMonotone(a, b[..|b| - 1], key);
    } else {
      assert a == b;
    }
  }

  lemma {:induction false} PushesMonotone(a: seq<Media>, b: seq<Media>, key: Key)
    requires a <= b
    ensures PushesOf(a, key) <= PushesOf(b, key)
  {
    if |a| < |b| {
      PushesMonotone(a, b[..|b| - 1], key);
    } else {
      assert a == b;
    }
  }

  /** Everything that was pushed under the key by then has been handed on. */
  ghost predicate CaughtUp(pushes: seq<Media>, handed: seq<Handed>, key: Key) {
    PushesOf(pushes, key) <= HandedOf(handed, key)
  }

  lemma StaysCaughtUp(pushes: seq<Media>, handed: seq<Handed>, handed': seq<Handed>, key: Key)
    requires CaughtUp(pushes, handed, key) && handed <= handed'
    ensures CaughtUp(pushes, handed', key)
  {
    HandedMonotone(handed, handed', key);
  }

  /** A key without a bucket is up to date. */
  lemma AllCaughtUp(pushes: seq<Media>, handed: seq<Handed>, buckets: map<Key, Bucket>)
    requires Conserved(pushes, handed, buckets)
    ensures forall key :: key !in buckets ==> CaughtUp(pushes, handed, key)
  {
    hide HandedOf, PushesOf;
    forall key | key !in buckets
      ensures CaughtUp(pushes, handed, key)
    {
      assert HandedOf(handed, key) + Waiting(buckets, key) == PushesOf(pushes, key);
    }
  }

  /** And stays so, as far as earlier pushes go. */
  lemma CaughtUpLater(early: seq<Media>, pushes: seq<Media>, handed: seq<Handed>, buckets: map<Key, Bucket>, key: Key)
    requires Conserved(pushes, handed, buckets) && key !in buckets && early <= pushes
    ensures forall later :: handed <= later ==> CaughtUp(early, later, key)
  {
    AllCaughtUp(pushes, handed, buckets);
    PushesMonotone(early, pushes, key);
    forall later | handed <= later
      ensures CaughtUp(early, later, key)
    {
      HandedMonotone(handed, later, key);
    }
  }

  /** What other coroutines and the event loop may do while a handler suspends. Another flush of a chat,
      or of everything, goes on bucket by bucket. */
  datatype Action = Pushed(m: Media, h: nat) | Fired(t: nat) | TaskRan(key: Key) | FlushedOn(key: Key)

  // ---- the manager ---------------------------------------------------------------------------------

  class MediaPipelineManager {
    const maxItems: int
    var buckets: map<Key, Bucket>
    var handler: Option<nat>

    // The event loop.
    var armed: map<nat, Key>
    var timersMade: nat
    var spawned: multiset<Key>         // flush tasks that have not run yet

    /** The batches handed to a handler, in order. */
    var handed: seq<Handed>

    ghost var pushes: seq<Media>

    ghost predicate Valid()
      reads this
    {
      && Conserved(pushes, handed, buckets) && Sorted(buckets) && SortedOut(handed) && Timed(buckets, armed, timersMade, spawned)
      && (forall key :: key in buckets ==> |buckets[key].sources| < maxItems)
      && (buckets != map[] ==> handler.Some?)
    }

    constructor (maxItems: int)
      ensures Valid() && this.maxItems == maxItems && pushes == [] && handed == [] && buckets == map[]
    {
      this.maxItems := maxItems;
      buckets, handler, armed, timersMade, spawned, handed, pushes := map[], None, map[], 0, multiset{}, [], [];
    }

    /** Adds the message to its bucket. A full bucket is handed on at once, otherwise its timer starts
        again. */
    method Push(m: Media, h: nat)
      requires Valid()
      modifies this
      ensures Valid() && pushes == old(pushes) + [m] && handler == Some(h) && spawned == old(spawned)
      ensures var key, sources := KeyOf(m), Waiting(old(buckets), KeyOf(m)) + [m];
        if |sources| >= maxItems then
          buckets == old(buckets) - {key} && handed == old(handed) + [Handed(h, key, Attach(sources))]
        else
          && handed == old(handed) && buckets == old(buckets)[key := Bucket(sources, Some(old(timersMade)))]
          && old(timersMade) in armed && armed[old(timersMade)] == key
    {
      hide Conserved, Timed, Sorted, SortedOut;
      var key := KeyOf(m);
      handler := Some(h);
      var sources := Waiting(buckets, key) + [m];
      var timer := if key in buckets then buckets[key].timer else None;
      Stays(key, m, sources);
      TimedPush(buckets, armed, timersMade, spawned, key, sources);
      if key in buckets {
        TimedFlush(buckets, armed, timersMade, spawned, spawned, key);
      } else {
        assert buckets - {key} == buckets;
      }
      PushConserves(pushes, handed, buckets, m, Some(timersMade));
      ghost var before := buckets;
      buckets := buckets[key := Bucket(sources, Some(timersMade))];
      armed := Disarmed(armed, timer);
      pushes := pushes + [m];
      if |sources| >= maxItems {
        FlushFull(key, before);
        return;
      }
      armed := armed[timersMade := key];
      timersMade := timersMade + 1;
    }

    lemma Stays(key: Key, m: Media, sources: seq<Media>)
      requires Sorted(buckets) && key == KeyOf(m) && sources == Waiting(buckets, key) + [m]
      ensures Sorted(buckets[key := Bucket(sources, Some(timersMade))])
    {
    }

    /** The flush of a bucket that has just become full; its timer is cancelled. */
    method FlushFull(key: Key, ghost before: map<Key, Bucket>)
      requires Conserved(pushes, handed, buckets) && Sorted(buckets) && SortedOut(handed) && handler.Some?
      requires key in buckets && buckets[key].sources != [] && Timed(before - {key}, armed, timersMade, spawned)
      requires forall k :: k in buckets && k != key ==> |buckets[k].sources| < maxItems
      requires buckets - {key} == before - {key}
      modifies this`buckets, this`handed
      ensures Valid() && buckets == before - {key}
      ensures handed == old(handed) + [Handed(handler.value, key, Attach(old(buckets)[key].sources))]
    {
      hide Conserved, Timed, SortedOut;
      FlushConserves(pushes, handed, buckets, key, handler.value);
      SortedFlush(buckets, handed, key, handler.value);
      handed := handed + [Handed(handler.value, key, Attach(buckets[key].sources))];
      buckets := buckets - {key};
    }

    /** A debounce timer fires: a task is made that will flush the bucket. */
    method TimerFires(t: nat)
      requires Valid() && t in armed
      modifies this`armed, this`spawned
      ensures Valid() && armed == old(armed) - {t} && spawned == old(spawned) + multiset{old(armed)[t]}
    {
      hide Conserved, Timed, Sorted, SortedOut;
      TimedFire(buckets, armed, timersMade, spawned, t);
      spawned := spawned + multiset{armed[t]};
      armed := armed - {t};
    }

    /** Hands a bucket on, if there is one. */
    method FlushBucket(key: Key)
      requires Valid()
      modifies this
      ensures Valid() && pushes == old(pushes) && handler == old(handler) && spawned == old(spawned)
      ensures buckets == old(buckets) - {key} && timersMade == old(timersMade)
      ensures handed == if key in old(buckets)
        then old(handed) + [Handed(handler.value, key, Attach(old(buckets)[key].sources))] else old(handed)
    {
      hide Conserved, Timed, Sorted, SortedOut;
      FlushAndForget(key, spawned);
    }

    /** The spawned flush task runs; whatever is in the bucket by then goes with it. */
    method FlushTaskRuns(key: Key)
      requires Valid() && key in spawned
      modifies this
      ensures Valid() && pushes == old(pushes) && buckets == old(buckets) - {key} && handler == old(handler)
      ensures spawned == old(spawned) - multiset{key}
      ensures handed == if key in old(buckets)
        then old(handed) + [Handed(handler.value, key, Attach(old(buckets)[key].sources))] else old(handed)
    {
      hide Conserved, Timed, Sorted, SortedOut;
      FlushAndForget(key, spawned - multiset{key});
    }

    method FlushAndForget(key: Key, spawned': multiset<Key>)
      requires Valid() && (forall k :: k in spawned && k != key ==> k in spawned')
      modifies this
      ensures Valid() && pushes == old(pushes) && handler == old(handler) && spawned == spawned'
      ensures buckets == old(buckets) - {key} && timersMade == old(timersMade)
      ensures handed == if key in old(buckets)
        then old(handed) + [Handed(handler.value, key, Attach(old(buckets)[key].sources))] else old(handed)
    {
      hide Conserved, Timed, SortedOut;
      if key !in buckets {
        TimedAbsent(key, spawned');
        spawned := spawned';
        assert buckets - {key} == buckets;
        return;
      }
      BucketFull(key);
      FlushConserves(pushes, handed, buckets, key, handler.value);
      SortedFlush(buckets, handed, key, handler.value);
      TimedFlush(buckets, armed, timersMade, spawned, spawned', key);
      armed := Disarmed(armed, buckets[key].timer);
      spawned := spawned';
      handed := handed + [Handed(handler.value, key, Attach(buckets[key].sources))];
      buckets := buckets - {key};
    }

    lemma BucketFull(key: Key)
      requires Valid() && key in buckets
      ensures buckets[key].sources != []
    {
    }

    lemma TimedAbsent(key: Key, spawned': multiset<Key>)
      requires Valid() && key !in buckets && (forall k :: k in spawned && k != key ==> k in spawned')
      ensures Timed(buckets, armed, timersMade, spawned')
    {
      forall k | k in buckets
        ensures Due(buckets[k], k, armed, spawned')
      {
        assert Due(buckets[k], k, armed, spawned);
      }
    }

    /** One thing that happens meanwhile, if it can. */
    method Perform(a: Action)
      requires Valid()
      modifies this
      ensures Valid() && old(pushes) <= pushes && old(handed) <= handed
    {
      hide Conserved, Timed, Sorted, SortedOut;
      match a {
        case Pushed(m, h) => Push(m, h);
        case Fired(t) =>
          if t in armed {
            TimerFires(t);
          }
        case TaskRan(key) =>
          if key in spawned {
            FlushTaskRuns(key);
          }
        case FlushedOn(key) => FlushBucket(key);
      }
    }

    method PerformAll(actions: seq<Action>)
      requires Valid()
      modifies this
      ensures Valid() && old(pushes) <= pushes && old(handed) <= handed
      ensures actions == [] ==> pushes == old(pushes) && buckets == old(buckets)
    {
      hide Valid;
      for i := 0 to |actions|
        invariant Valid() && old(pushes) <= pushes && old(handed) <= handed
        invariant i == 0 ==> pushes == old(pushes) && buckets == old(buckets)
      {
        Perform(actions[i]);
      }
    }

    /** Hands on one bucket after the other, with other things happening during each hand-over. */
    method FlushKeys(keys: set<Key>, meanwhile: seq<seq<Action>>)
      requires Valid()
      modifies this
      ensures Valid() && old(pushes) <= pushes && old(handed) <= handed
      ensures forall key :: key in keys ==> CaughtUp(old(pushes), handed, key)
      ensures meanwhile == [] ==> pushes == old(pushes) && buckets == old(buckets) - keys
    {
      hide CaughtUp, Conserved, Timed, Sorted, SortedOut;
      var todo, i := keys, 0;
      while todo != {}
        invariant Valid() && old(pushes) <= pushes && old(handed) <= handed && todo <= keys
        invariant forall key :: key in keys && key !in todo ==> CaughtUp(old(pushes), handed, key)
        invariant meanwhile == [] ==> pushes == old(pushes) && buckets == old(buckets) - (keys - todo)
        decreases |todo|
      {
        var key :| key in todo;
        ghost var before := handed;
        FlushBucket(key);
        CaughtUpLater(old(pushes), pushes, handed, buckets, key);
        PerformAll(if i < |meanwhile| then meanwhile[i] else []);
        forall k | k in keys && (k !in todo || k == key)
          ensures CaughtUp(old(pushes), handed, k)
        {
          if k != key {
            StaysCaughtUp(old(pushes), before, handed, k);
          } else {
            assert CaughtUp(old(pushes), handed, key);
          }
        }
        todo, i := todo - {key}, i + 1;
      }
    }

    /** Messages of one bucket, and of one batch that was handed on, belong together; and two that belong
        together never wait in different buckets. */
    lemma BatchesAreAlike()
      requires Valid()
      ensures forall key, a, b :: key in buckets && a in buckets[key].sources && b in buckets[key].sources ==> Alike(a, b)
      ensures forall i, a, b :: 0 <= i < |handed| && a in SourcesOf(handed[i].carrier) && b in SourcesOf(handed[i].carrier) ==> Alike(a, b)
      ensures forall key, other, a, b :: key in buckets && other in buckets && a in buckets[key].sources && b in buckets[other].sources && Alike(a, b) ==>
        key == other
    {
      hide Conserved, Timed, SourcesOf, Alike, KeyOf;
      forall a, b
        ensures KeyOf(a) == KeyOf(b) <==> Alike(a, b)
      {
        AlikeIff(a, b);
      }
    }

    /** Message by message: as often as it was pushed, it has been handed on or waits. */
    lemma EachPushOnce(m: Media)
      requires Valid()
      ensures multiset(pushes)[m] == multiset(Delivered(handed))[m] + multiset(Waiting(buckets, KeyOf(m)))[m]
      ensures forall key :: key in buckets && m in buckets[key].sources ==> key == KeyOf(m)
    {
      hide Timed, KeyOf, HandedOf, PushesOf, Delivered, SortedOut;
      CountPushed(pushes, m);
      CountHanded(handed, KeyOf(m), m);
      assert HandedOf(handed, KeyOf(m)) + Waiting(buckets, KeyOf(m)) == PushesOf(pushes, KeyOf(m));
    }

    /** Before another kind of message of a chat is handled, everything batched for the chat is handed
        on, whatever happens during the hand-overs. If nothing does, no bucket of the chat is left. */
    method FlushIncompatibleFor(chatId: string, meanwhile: seq<seq<Action>>)
      requires Valid()
      modifies this
      ensures Valid() && old(pushes) <= pushes && old(handed) <= handed
      ensures forall key: Key :: key.chatId == chatId ==> CaughtUp(old(pushes), handed, key)
      ensures forall m :: m in old(pushes) && m.chatId == chatId ==> multiset(old(pushes))[m] <= multiset(Delivered(handed))[m]
      ensures meanwhile == [] ==> pushes == old(pushes) && buckets == map key | key in old(buckets) && key.chatId != chatId :: old(buckets)[key]
    {
      hide CaughtUp, Conserved, Timed, Sorted, SortedOut;
      var keys := set key | key in buckets && key.chatId == chatId;
      AllCaughtUp(pushes, handed, buckets);
      ghost var before := handed;
      FlushKeys(keys, meanwhile);
      forall key: Key | key.chatId == chatId && key !in keys
        ensures CaughtUp(old(pushes), handed, key)
      {
        StaysCaughtUp(old(pushes), before, handed, key);
      }
      ChatDelivered(old(pushes), handed, chatId);
    }

    /** Everything that waits is handed on, whatever happens during the hand-overs. */
    method Dispose(meanwhile: seq<seq<Action>>)
      requires Valid()
      modifies this
      ensures Valid() && old(pushes) <= pushes
      ensures forall key :: CaughtUp(old(pushes), handed, key)
      ensures forall m :: m in old(pushes) ==> multiset(old(pushes))[m] <= multiset(Delivered(handed))[m]
      ensures meanwhile == [] ==> buckets == map[]
    {
      hide CaughtUp, Conserved, Timed, Sorted, SortedOut;
      var keys := buckets.Keys;
      AllCaughtUp(pushes, handed, buckets);
      ghost var before := handed;
      FlushKeys(keys, meanwhile);
      forall key | key !in keys
        ensures CaughtUp(old(pushes), handed, key)
      {
        StaysCaughtUp(old(pushes), before, handed, key);
      }
      forall m | m in old(pushes)
        ensures multiset(old(pushes))[m] <= multiset(Delivered(handed))[m]
      {
        ChatDelivered(old(pushes), handed, m.chatId);
      }
    }
  }
}
