/** The safety pipeline put together: gate, chat scopes, media batcher and handlers in one state.

    Where a delivery is follows from the history of its chat scope, or from the buckets of the media
    batcher. Its handler starts when its entry on a queue is consumed; nothing asks whether it started
    before. That it does not is derived here, and the whole refines the transition system of `Dispatch`. */
module Pipeline {
  import opened Wrappers
  import opened SeenCache
  import H = CallHistory
  import Msg = Messages
  import MP = MediaPipeline
  import D = Dispatch
  import SP = SafetyPipeline
  import OD = OrderedDict

  /** Where a delivery was handed to: no queue yet, straight to the handler, a call of a chat scope, or a
      push to the media batcher. A message of another kind first waits while the media buckets that its
      chat had are handed on; `pushed` is how much media had been pushed by then. */
  datatype Address =
    | Nowhere
    | Flushing(chatId: string, keys: set<MP.Key>, pushed: nat)
    | Direct
    | InChat(scope: string, ticket: nat)
    | InMedia(push: nat)

  datatype Stage = Travelling | Handling | Marked | Finished

  datatype Item = Item(id: string, since: int, address: Address, stage: Stage)

  /** A chat scope: its history, the delivery behind each call, and how many queue entries were begun. */
  datatype Chat = Chat(h: H.History, owners: seq<nat>, started: nat)

  /** The media batcher; a pushed message is tagged with its delivery. Per key, `started` of the messages
      handed on have reached their handler. */
  datatype Batcher = Batcher(
    pushes: seq<MP.Media>, buckets: map<MP.Key, MP.Bucket>, handed: seq<MP.Handed>, started: map<MP.Key, nat>)

  datatype State = State(
    clock: int, wall: real, locks: map<string, int>, seen: Memory, items: seq<Item>,
    chats: map<string, Chat>, media: Batcher, mediaOn: bool, entered: seq<string>, completed: map<string, D.Completion>)

  function Init(wall: real, mediaOn: bool): State {
    State(0, wall, map[], D.Init(wall).seen, [], map[], Batcher([], map[], [], map[]), mediaOn, [], map[])
  }

  const NO_CHAT := Chat(H.NO_HISTORY, [], 0)

  function ChatOf(st: State, scope: string): Chat {
    if scope in st.chats then st.chats[scope] else NO_CHAT
  }

  function StartedOf(m: Batcher, key: MP.Key): nat {
    if key in m.started then m.started[key] else 0
  }

  // ---- places, derived -----------------------------------------------------------------------------

  function ChatPlace(h: H.History, t: nat): D.Place {
    if t in H.Tickets(h.order) then D.TaskQueue
    else if t in H.Tickets(h.waiting) then D.ChatBuffer
    else if t in H.Tickets(h.deferred) then D.HeldBack
    else D.Withdrawn
  }

  function MediaPlace(m: Batcher, i: nat): D.Place {
    if i < |m.pushes| && m.pushes[i] in MP.HandedOf(m.handed, MP.KeyOf(m.pushes[i])) then D.MediaHanded else D.MediaBucket
  }

  function PlaceOf(st: State, it: Item): D.Place {
    match it.stage
    case Handling => D.InHandler
    case Marked => D.MarkedSeen
    case Finished => D.Done
    case Travelling =>
      match it.address
      case Nowhere => D.Gated
      case Flushing(_, _, _) => D.Gated
      case Direct => D.Gated
      case InChat(scope, t) => ChatPlace(ChatOf(st, scope).h, t)
      case InMedia(i) => MediaPlace(st.media, i)
  }

  function Deliveries(st: State): (ds: seq<D.Delivery>)
    ensures |ds| == |st.items|
    ensures forall k :: 0 <= k < |ds| ==> ds[k] == D.Delivery(st.items[k].id, st.items[k].since, PlaceOf(st, st.items[k]))
  {
    seq(|st.items|, k requires 0 <= k < |st.items| => D.Delivery(st.items[k].id, st.items[k].since, PlaceOf(st, st.items[k])))
  }

  function Abs(st: State): D.State {
    D.State(st.clock, st.wall, st.locks, st.seen, Deliveries(st), st.entered, st.completed)
  }

  // ---- steps ---------------------------------------------------------------------------------------

  /** What a chat scope does on its own. */
  datatype ChatMove = Flush(n: nat) | ReleaseRun | SkipRun | Withdraw

  ghost predicate Moves(h: H.History, move: ChatMove, h': H.History) {
    match move
    case Flush(n) => n <= |h.waiting| && h' == H.Flush(h, n)
    case ReleaseRun => h.waiting == [] && h.deferred != [] && h' == H.Release(h)
    case SkipRun => h.deferred != [] && h' == H.Skip(h)
    case Withdraw => h' == H.Withdraw(h)
  }

  datatype Step =
    | Tick(clock: int, wall: real)
    | Offer(id: string, shared: bool, passes: bool)
    | LightAsk(id: string, shared: bool)
    | LightAdd(id: string)
    | BeginFlush(k: nat, chatId: string)
    | FlushNext(k: nat, key: MP.Key)
    | PushChat(k: nat, scope: string, msg: Msg.InboundMessage, handler: nat)
    | RunChat(k: nat, scope: string, task: nat, held: bool)
    | PushMedia(k: nat, m: MP.Media, timer: Option<nat>)
    | MoveChat(scope: string, move: ChatMove)
    | HandMedia(key: MP.Key, handler: nat)
    | StartChat(scope: string)
    | StartMedia(key: MP.Key)
    | StartDirect(k: nat)
    | Mark(k: nat)
    | Release(k: nat)

  /** The coroutine of delivery `k` is past the lock and has done nothing since. */
  predicate AtGate(st: State, k: nat) {
    k < |st.items| && st.items[k].address == Nowhere && st.items[k].stage == Travelling
  }

  /** The message may go on: with media batching, the buckets that its chat had are gone. */
  predicate Ready(st: State, k: nat) {
    if st.mediaOn then
      k < |st.items| && st.items[k].address.Flushing? && st.items[k].address.keys == {} && st.items[k].stage == Travelling
    else AtGate(st, k)
  }

  function Begin(st: State, k: nat): State
    requires k < |st.items|
  {
    st.(items := st.items[k := st.items[k].(stage := Handling)], entered := st.entered + [st.items[k].id])
  }

  function Send(st: State, k: nat, address: Address): seq<Item>
    requires k < |st.items|
  {
    st.items[k := st.items[k].(address := address)]
  }

  function Called(ch: Chat, k: nat, h': H.History): Chat {
    ch.(h := h', owners := ch.owners + [k])
  }

  ghost predicate Next(c: D.Config, st: State, step: Step, st': State) {
    Sized(st.seen, c.settings) &&
    match step
    case Tick(clock, wall) => st.clock <= clock && st.wall <= wall && st' == st.(clock := clock, wall := wall)
    case Offer(id, shared, passes) =>
      exists accepted: bool ::
        && SP.Admission(c.settings, c.lockTtl, id, st.clock, st.wall, shared, passes,
                        st.locks, st.seen, st'.locks, st'.seen, accepted)
        && st' == st.(locks := st'.locks, seen := st'.seen,
                      items := if accepted then st.items + [Item(id, st.clock, Nowhere, Travelling)] else st.items,
                      completed := D.Touch(st.completed, id))
    case LightAsk(id, shared) =>
      st' == st.(seen := Asked(st.seen, c.settings, id, st.wall, shared).0, completed := D.Touch(st.completed, id))
    case LightAdd(id) =>
      st' == st.(seen := Added(st.seen, c.settings, id, st.wall), completed := D.Touch(st.completed, id))
    case BeginFlush(k, chatId) =>
      && st.mediaOn && AtGate(st, k)
      && var keys := set key | key in st.media.buckets && key.chatId == chatId;
         st' == st.(items := Send(st, k, Flushing(chatId, keys, |st.media.pushes|)))
    case FlushNext(k, key) =>
      // The flush hands the bucket on, which is a step of its own, unless somebody else did.
      && k < |st.items| && st.items[k].address.Flushing? && st.items[k].stage == Travelling
      && key in st.items[k].address.keys && key !in st.media.buckets
      && st' == st.(items := Send(st, k, st.items[k].address.(keys := st.items[k].address.keys - {key})))
    case PushChat(k, scope, msg, handler) =>
      && Ready(st, k) && msg.id == st.items[k].id
      && (st.mediaOn ==> scope == if st.items[k].address.chatId != "" then st.items[k].address.chatId else msg.id)
      && var ch := ChatOf(st, scope);
         st' == st.(items := Send(st, k, InChat(scope, |ch.h.calls|)),
                    chats := st.chats[scope := Called(ch, k, H.Wait(ch.h, H.Pushed(msg, handler)))])
    case RunChat(k, scope, task, held) =>
      && AtGate(st, k)
      && var ch := ChatOf(st, scope);
         && (!held ==> ch.h.waiting == [] && ch.h.deferred == [])
         && st' == st.(items := Send(st, k, InChat(scope, |ch.h.calls|)),
                       chats := st.chats[scope := Called(ch, k,
                         if held then H.Defer(ch.h, H.Ran(task)) else H.Place(ch.h, H.Ran(task)))])
    case PushMedia(k, m, timer) =>
      && AtGate(st, k) && m.id == k
      && var key := MP.KeyOf(m);
         st' == st.(items := Send(st, k, InMedia(|st.media.pushes|)),
                    media := st.media.(pushes := st.media.pushes + [m],
                      buckets := st.media.buckets[key := MP.Bucket(MP.Waiting(st.media.buckets, key) + [m], timer)]))
    case MoveChat(scope, move) =>
      && scope in st.chats
      && Moves(st.chats[scope].h, move, ChatOf(st', scope).h)
      && st' == st.(chats := st.chats[scope := st.chats[scope].(h := ChatOf(st', scope).h)])
    case HandMedia(key, handler) =>
      && key in st.media.buckets && st.media.buckets[key].sources != []
      && st' == st.(media := st.media.(
           buckets := st.media.buckets - {key},
           handed := st.media.handed + [MP.Handed(handler, key, MP.Attach(st.media.buckets[key].sources))]))
    case StartChat(scope) =>
      && scope in st.chats && st.chats[scope].started < |st.chats[scope].h.order|
      && var t := st.chats[scope].h.order[st.chats[scope].started].ticket;
         && t < |st.chats[scope].owners| && st.chats[scope].owners[t] < |st.items|
         && st' == Begin(st, st.chats[scope].owners[t]).(
              chats := st.chats[scope := st.chats[scope].(started := st.chats[scope].started + 1)])
    case StartMedia(key) =>
      && var n, handed := StartedOf(st.media, key), MP.HandedOf(st.media.handed, key);
         && n < |handed| && handed[n].id < |st.items|
         && st' == Begin(st, handed[n].id).(media := st.media.(started := st.media.started[key := n + 1]))
    case StartDirect(k) =>
      Ready(st, k) && st' == Begin(st.(items := Send(st, k, Direct)), k)
    case Mark(k) =>
      && k < |st.items| && st.items[k].stage == Handling
      && var id := st.items[k].id;
         st' == st.(items := st.items[k := st.items[k].(stage := Marked)],
                    seen := Added(st.seen, c.settings, id, st.wall),
                    completed := D.Touch(st.completed, id)[id := D.Completion(st.wall, {})])
    case Release(k) =>
      && k < |st.items| && st.items[k].stage == Marked
      && st' == st.(items := st.items[k := st.items[k].(stage := Finished)], locks := st.locks - {st.items[k].id})
  }

  // ---- the invariant -------------------------------------------------------------------------------

  /** The scope's history is sound, and its calls and its deliveries point at each other. */
  ghost predicate ChatOk(items: seq<Item>, scope: string, ch: Chat) {
    && H.Sound(ch.h) && |ch.owners| == |ch.h.calls| && ch.started <= |ch.h.order|
    && forall t :: 0 <= t < |ch.owners| ==> ch.owners[t] < |items| && items[ch.owners[t]].address == InChat(scope, t)
  }

  ghost predicate MediaOk(items: seq<Item>, m: Batcher) {
    && MP.Conserved(m.pushes, m.handed, m.buckets)
    && (forall i :: 0 <= i < |m.pushes| ==> m.pushes[i].id < |items| && items[m.pushes[i].id].address == InMedia(i))
    && forall key :: key in m.started ==> m.started[key] <= |MP.HandedOf(m.handed, key)|
  }

  /** A delivery has reached its handler exactly if its entry was consumed. */
  ghost predicate ItemOk(st: State, k: nat)
    requires k < |st.items|
  {
    var it := st.items[k];
    match it.address
    case Nowhere => it.stage == Travelling
    case Flushing(_, _, _) => it.stage == Travelling
    case Direct => it.stage != Travelling
    case InChat(scope, t) =>
      && scope in st.chats && t < |st.chats[scope].owners| && st.chats[scope].owners[t] == k
      && (it.stage != Travelling <==> t in Begun(st.chats[scope]))
    case InMedia(i) =>
      && i < |st.media.pushes| && st.media.pushes[i].id == k
      && (it.stage != Travelling <==> st.media.pushes[i] in Taken(st.media, MP.KeyOf(st.media.pushes[i])))
  }

  function Begun(ch: Chat): set<nat> {
    if ch.started <= |ch.h.order| then H.Tickets(ch.h.order[..ch.started]) else {}
  }

  function Taken(m: Batcher, key: MP.Key): seq<MP.Media> {
    var handed := MP.HandedOf(m.handed, key);
    if StartedOf(m, key) <= |handed| then handed[..StartedOf(m, key)] else []
  }

  ghost predicate Inv(st: State) {
    && (forall scope :: scope in st.chats ==> ChatOk(st.items, scope, st.chats[scope]))
    && MediaOk(st.items, st.media)
    && forall k :: 0 <= k < |st.items| ==> ItemOk(st, k)
  }

  // ---- refinement, in general ----------------------------------------------------------------------

  function Places(st: State): (ps: seq<D.Place>)
    ensures |ps| == |st.items| && forall k :: 0 <= k < |ps| ==> ps[k] == PlaceOf(st, st.items[k])
  {
    seq(|st.items|, k requires 0 <= k < |st.items| => PlaceOf(st, st.items[k]))
  }

  /** Nothing but places differs. */
  predicate SameButPlaces(st: State, st': State) {
    && st'.clock == st.clock && st'.wall == st.wall && st'.locks == st.locks && st'.seen == st.seen
    && st'.completed == st.completed && |st'.items| == |st.items|
    && forall k :: 0 <= k < |st.items| ==> st'.items[k].id == st.items[k].id && st'.items[k].since == st.items[k].since
  }

  /** Deliveries only moved between queues. */
  ghost predicate MovesOnly(st: State, st': State) {
    && SameButPlaces(st, st') && st'.entered == st.entered
    && forall k :: 0 <= k < |st.items| ==> D.CanMove(PlaceOf(st, st.items[k]), PlaceOf(st', st'.items[k]))
  }

  /** The handler of delivery `k` started. */
  ghost predicate EntersOnly(st: State, st': State, k: nat) {
    && SameButPlaces(st, st') && k < |st.items| && st'.entered == st.entered + [st.items[k].id]
    && D.Waiting(PlaceOf(st, st.items[k])) && PlaceOf(st', st'.items[k]) == D.InHandler
    && forall j :: 0 <= j < |st.items| && j != k ==> PlaceOf(st', st'.items[j]) == PlaceOf(st, st.items[j])
  }

  lemma MoveRefines(c: D.Config, st: State, st': State)
    requires Sized(st.seen, c.settings) && MovesOnly(st, st')
    ensures D.Next(c, Abs(st), D.Move(Places(st')), Abs(st'))
  {
    assert Deliveries(st') == D.Placed(Deliveries(st), Places(st'));
  }

  lemma EnterRefines(c: D.Config, st: State, st': State, k: nat)
    requires Sized(st.seen, c.settings) && EntersOnly(st, st', k)
    ensures D.Next(c, Abs(st), D.Enter(k), Abs(st'))
  {
    var ds := Deliveries(st);
    assert Deliveries(st') == ds[k := ds[k].(place := D.InHandler)];
  }

  // ---- chat scopes ---------------------------------------------------------------------------------

  lemma TicketsConcat(a: seq<H.Entry>, b: seq<H.Entry>)
    ensures H.Tickets(a + b) == H.Tickets(a) + H.Tickets(b)
  {
    forall t | t in H.Tickets(a) + H.Tickets(b)
      ensures t in H.Tickets(a + b)
    {
      if t in H.Tickets(a) {
        var e :| e in a && e.ticket == t;
        assert e in a + b;
      } else {
        var e :| e in b && e.ticket == t;
        assert e in a + b;
      }
    }
  }

  lemma TicketsOne(e: H.Entry)
    ensures H.Tickets([e]) == {e.ticket}
  {
  }

  lemma ChatMoves(h: H.History, move: ChatMove, h': H.History, t: nat)
    requires Moves(h, move, h')
    ensures D.CanMove(ChatPlace(h, t), ChatPlace(h', t))
  {
    match move {
      case Flush(n) =>
        assert h.waiting == h.waiting[..n] + h.waiting[n..];
        TicketsConcat(h.waiting[..n], h.waiting[n..]);
        TicketsConcat(h.order, h.waiting[..n]);
      case ReleaseRun =>
        assert h.deferred == [h.deferred[0]] + h.deferred[1..];
        TicketsConcat([h.deferred[0]], h.deferred[1..]);
        TicketsConcat(h.order, [h.deferred[0]]);
      case SkipRun =>
        assert h.deferred == [h.deferred[0]] + h.deferred[1..];
        TicketsConcat([h.deferred[0]], h.deferred[1..]);
      case Withdraw =>
    }
  }

  lemma ChatMoveOk(h: H.History, move: ChatMove, h': H.History)
    requires Moves(h, move, h') && H.Sound(h)
    ensures H.Sound(h') && h'.calls == h.calls && h.order <= h'.order
  {
    match move {
      case Flush(n) => H.FlushSound(h, n);
      case ReleaseRun => H.ReleaseSound(h);
      case SkipRun => H.SkipSound(h);
      case Withdraw => H.WithdrawSound(h);
    }
  }

  /** A new call of a scope: it waits, is held back, or is placed. */
  ghost predicate Calls(h: H.History, h': H.History) {
    || (exists msg, handler :: h' == H.Wait(h, H.Pushed(msg, handler)))
    || (exists task :: h' == H.Defer(h, H.Ran(task)))
    || (h.waiting == [] && h.deferred == [] && exists task :: h' == H.Place(h, H.Ran(task)))
  }

  lemma CallOk(h: H.History, h': H.History)
    requires Calls(h, h') && H.Sound(h)
    ensures H.Sound(h') && |h'.calls| == |h.calls| + 1 && h.order <= h'.order
  {
    hide H.Sound;
    if msg, handler :| h' == H.Wait(h, H.Pushed(msg, handler)) {
      H.WaitSound(h, H.Pushed(msg, handler));
    } else if task :| h' == H.Defer(h, H.Ran(task)) {
      H.DeferSound(h, H.Ran(task));
    } else {
      var task :| h' == H.Place(h, H.Ran(task));
      H.PlaceSound(h, H.Ran(task));
    }
  }

  lemma CallPlaces(h: H.History, h': H.History, t: nat)
    requires Calls(h, h')
    ensures t != |h.calls| ==> ChatPlace(h', t) == ChatPlace(h, t)
    ensures D.Waiting(ChatPlace(h', |h.calls|))
  {
    var e := h'.calls[|h.calls|];
    assert e.ticket == |h.calls|;
    hide H.Tickets;
    TicketsOne(e);
    TicketsConcat(h.order, [e]);
    TicketsConcat(h.waiting, [e]);
    TicketsConcat(h.deferred, [e]);
  }

  /** No ticket is on the queue twice, so what comes next was not begun before. */
  lemma NextIsNew(h: H.History, n: nat)
    requires H.Sound(h) && n < |h.order|
    ensures h.order[n].ticket !in H.Tickets(h.order[..n])
  {
    hide H.Overtaken, H.NoOvertaking, H.Pick;
    forall p | 0 <= p < n
      ensures h.order[p].ticket != h.order[n].ticket
    {
      H.PlacedIsCall(h, h.order[p]);
      H.PlacedIsCall(h, h.order[n]);
      if h.order[p] == h.order[n] {
        SameTwice(h, p, n);
      }
    }
  }

  lemma SameTwice(h: H.History, p: nat, n: nat)
    requires H.Sound(h) && p < n < |h.order|
    ensures h.order[p] != h.order[n]
  {
    hide H.Sound, H.Pick;
    var b := h.order[n].call.Pushed?;
    PickedStrictly(h, b);
    if h.order[p] == h.order[n] {
      var i, j := PickedTwice(h.order, b, p, n);
    }
  }

  lemma PickedStrictly(h: H.History, b: bool)
    requires H.Sound(h)
    ensures var picked := H.Pick(h.order, b, {});
      forall i, j :: 0 <= i < j < |picked| ==> picked[i].ticket < picked[j].ticket
  {
    hide H.Sound, H.Pick;
    H.MessagesInOrder(h);
    var picked := H.Pick(h.order, b, {});
    var all := picked + if b then h.waiting else h.deferred;
    assert forall i :: 0 <= i < |picked| ==> all[i] == picked[i];
  }

  lemma {:induction false} PickedTwice(es: seq<H.Entry>, b: bool, p: nat, n: nat) returns (i: nat, j: nat)
    requires p < n < |es| && es[p] == es[n] && es[n].call.Pushed? == b
    ensures var picked := H.Pick(es, b, {}); i < j < |picked| && picked[i] == picked[j] == es[n]
  {
    var front := es[..|es| - 1];
    if n < |es| - 1 {
      i, j := PickedTwice(front, b, p, n);
    } else {
      H.PickHas(front, b, {}, es[n]);
      assert front[p] == es[n];
      i :| 0 <= i < |H.Pick(front, b, {})| && H.Pick(front, b, {})[i] == es[n];
      j := |H.Pick(front, b, {})|;
    }
  }

  // ---- the media batcher ---------------------------------------------------------------------------

  /** Every message is pushed once. */
  predicate OncePushed(pushes: seq<MP.Media>) {
    forall i, j :: 0 <= i < j < |pushes| ==> pushes[i].id != pushes[j].id
  }

  lemma {:induction false} PushesOfAre(pushes: seq<MP.Media>, key: MP.Key)
    ensures forall m :: m in MP.PushesOf(pushes, key) ==> m in pushes && MP.KeyOf(m) == key
    ensures OncePushed(pushes) ==> OncePushed(MP.PushesOf(pushes, key))
  {
    if pushes != [] {
      var front, m := pushes[..|pushes| - 1], pushes[|pushes| - 1];
      PushesOfAre(front, key);
      assert pushes == front + [m];
      if OncePushed(pushes) {
        forall x | x in MP.PushesOf(front, key)
          ensures x.id != m.id
        {
          var i :| 0 <= i < |front| && front[i] == x;
          assert pushes[i] == x;
        }
      }
    }
  }

  lemma HandedArePushes(m: Batcher, key: MP.Key)
    requires MP.Conserved(m.pushes, m.handed, m.buckets)
    ensures var handed := MP.HandedOf(m.handed, key);
      && (forall x :: x in handed ==> x in m.pushes && MP.KeyOf(x) == key)
      && (OncePushed(m.pushes) ==> OncePushed(handed))
  {
    hide MP.HandedOf, MP.PushesOf, MP.KeyOf;
    PushesOfAre(m.pushes, key);
    var handed, all := MP.HandedOf(m.handed, key), MP.PushesOf(m.pushes, key);
    assert handed + MP.Waiting(m.buckets, key) == all;
    assert forall i :: 0 <= i < |handed| ==> handed[i] == all[i];
  }

  lemma TagsDiffer(items: seq<Item>, m: Batcher)
    requires MediaOk(items, m)
    ensures OncePushed(m.pushes)
  {
    hide MP.Conserved;
    forall i, j | 0 <= i < j < |m.pushes|
      ensures m.pushes[i].id != m.pushes[j].id
    {
      assert items[m.pushes[i].id].address == InMedia(i) && items[m.pushes[j].id].address == InMedia(j);
    }
  }

  lemma HandedGrows(handed: seq<MP.Handed>, h: MP.Handed, key: MP.Key)
    ensures MP.HandedOf(handed, key) <= MP.HandedOf(handed + [h], key)
  {
    assert (handed + [h])[..|handed|] == handed;
  }

  // ---- a call of a chat scope ----------------------------------------------------------------------

  /** On no queue yet. */
  predicate Unrouted(it: Item) {
    (it.address == Nowhere || it.address.Flushing?) && it.stage == Travelling
  }

  /** Delivery `k` becomes the next call of a scope. */
  ghost predicate Joins(st: State, k: nat, scope: string, h': H.History, st': State) {
    && k < |st.items| && Unrouted(st.items[k])
    && var ch := ChatOf(st, scope);
       && Calls(ch.h, h')
       && st' == st.(items := Send(st, k, InChat(scope, |ch.h.calls|)), chats := st.chats[scope := Called(ch, k, h')])
  }

  lemma ChatSound(st: State, scope: string)
    requires Inv(st)
    ensures ChatOk(st.items, scope, ChatOf(st, scope))
  {
    H.NothingSound();
  }

  lemma JoinChat(st: State, k: nat, scope: string, h': H.History, st': State, s: string)
    requires Inv(st) && Joins(st, k, scope, h', st') && s in st'.chats
    ensures ChatOk(st'.items, s, st'.chats[s])
  {
    hide H.Sound, Calls, MediaOk;
    ChatSound(st, scope);
    CallOk(ChatOf(st, scope).h, h');
    var ch := ChatOf(st, s);
    assert ChatOk(st.items, s, ch);
    assert forall t :: 0 <= t < |ch.owners| ==> ch.owners[t] != k;
  }

  lemma JoinItems(st: State, k: nat, scope: string, h': H.History, st': State)
    requires Inv(st) && Joins(st, k, scope, h', st')
    ensures forall j :: 0 <= j < |st'.items| ==> ItemOk(st', j)
  {
    hide MediaOk, MP.HandedOf, MP.KeyOf, Calls, Taken, Begun, H.Sound;
    ChatSound(st, scope);
    var ch := ChatOf(st, scope);
    CallOk(ch.h, h');
    CallBegun(ch, k, h');
    forall j | 0 <= j < |st'.items|
      ensures ItemOk(st', j)
    {
      assert ItemOk(st, j);
    }
  }

  lemma CallBegun(ch: Chat, k: nat, h': H.History)
    requires H.Sound(ch.h) && ch.started <= |ch.h.order| && ch.h.order <= h'.order
    ensures Begun(Called(ch, k, h')) == Begun(ch) && |ch.h.calls| !in Begun(ch)
  {
    hide H.Accounted, H.Overtaken;
    assert h'.order[..ch.started] == ch.h.order[..ch.started];
    BegunIsCalled(ch.h, ch.started);
  }

  lemma BegunIsCalled(h: H.History, n: nat)
    requires H.Numbered(h) && n <= |h.order|
    ensures |h.calls| !in H.Tickets(h.order[..n])
  {
  }

  lemma JoinMedia(st: State, k: nat, items': seq<Item>)
    requires MediaOk(st.items, st.media) && k < |st.items| == |items'|
    requires !st.items[k].address.InMedia? && forall j :: 0 <= j < |items'| && j != k ==> items'[j].address == st.items[j].address
    ensures MediaOk(items', st.media)
  {
    hide MP.Conserved;
  }

  lemma JoinPlaces(st: State, k: nat, scope: string, h': H.History, st': State)
    requires Inv(st) && Joins(st, k, scope, h', st')
    ensures MovesOnly(st, st')
  {
    hide MediaOk, MediaPlace, ChatPlace, Calls, H.Sound, MP.HandedOf;
    ChatSound(st, scope);
    var h := ChatOf(st, scope).h;
    forall j | 0 <= j < |st.items|
      ensures D.CanMove(PlaceOf(st, st.items[j]), PlaceOf(st', st'.items[j]))
    {
      assert ItemOk(st, j);
      if j == k {
        CallPlaces(h, h', |h.calls|);
      } else if st.items[j].address.InChat? && st.items[j].address.scope == scope {
        CallPlaces(h, h', st.items[j].address.ticket);
      }
    }
  }

  lemma JoinMediaOk(st: State, k: nat, scope: string, h': H.History, st': State)
    requires Inv(st) && Joins(st, k, scope, h', st')
    ensures MediaOk(st'.items, st'.media)
  {
    hide MediaOk, Calls, ChatOk, ItemOk;
    JoinMedia(st, k, st'.items);
  }

  // ---- a scope moves on its own --------------------------------------------------------------------

  lemma MoveChatKeeps(c: D.Config, st: State, scope: string, move: ChatMove, st': State)
    requires Inv(st) && Next(c, st, MoveChat(scope, move), st')
    ensures Inv(st') && MovesOnly(st, st')
  {
    hide MediaOk, MP.HandedOf, MP.KeyOf, Moves, H.Sound, ChatPlace, MediaPlace;
    var ch, ch' := st.chats[scope], st'.chats[scope];
    assert ChatOk(st.items, scope, ch);
    ChatMoveOk(ch.h, move, ch'.h);
    assert ch'.h.order[..ch.started] == ch.h.order[..ch.started];
    assert Begun(ch') == Begun(ch);
    forall s | s in st'.chats
      ensures ChatOk(st'.items, s, st'.chats[s])
    {
      assert ChatOk(st.items, s, st.chats[s]);
    }
    forall j | 0 <= j < |st.items|
      ensures ItemOk(st', j) && D.CanMove(PlaceOf(st, st.items[j]), PlaceOf(st', st'.items[j]))
    {
      assert ItemOk(st, j);
      if st.items[j].address.InChat? {
        ChatMoves(ch.h, move, ch'.h, st.items[j].address.ticket);
      }
    }
  }

  // ---- the media batcher ---------------------------------------------------------------------------

  lemma PushMediaOk(c: D.Config, st: State, k: nat, m: MP.Media, timer: Option<nat>, st': State)
    requires Inv(st) && Next(c, st, PushMedia(k, m, timer), st')
    ensures MediaOk(st'.items, st'.media)
  {
    hide MP.Conserved, MP.HandedOf, ChatOk, ItemOk;
    MP.PushConserves(st.media.pushes, st.media.handed, st.media.buckets, m, timer);
    forall i | 0 <= i < |st'.media.pushes|
      ensures st'.media.pushes[i].id < |st'.items| && st'.items[st'.media.pushes[i].id].address == InMedia(i)
    {
      if i < |st.media.pushes| {
        assert st.items[st.media.pushes[i].id].address == InMedia(i);
      }
    }
  }

  lemma PushMediaItems(c: D.Config, st: State, k: nat, m: MP.Media, timer: Option<nat>, st': State)
    requires Inv(st) && Next(c, st, PushMedia(k, m, timer), st')
    ensures forall j :: 0 <= j < |st'.items| ==> ItemOk(st', j)
    ensures forall s :: s in st'.chats ==> ChatOk(st'.items, s, st'.chats[s])
  {
    hide MP.Conserved, MP.HandedOf, H.Sound, Begun;
    HandedArePushes(st.media, MP.KeyOf(m));
    assert m !in Taken(st.media, MP.KeyOf(m)) by {
      assert forall i :: 0 <= i < |st.media.pushes| ==> st.media.pushes[i].id != k;
    }
    forall j | 0 <= j < |st'.items|
      ensures ItemOk(st', j)
    {
      assert ItemOk(st, j);
    }
    forall s | s in st'.chats
      ensures ChatOk(st'.items, s, st'.chats[s])
    {
      assert ChatOk(st.items, s, st.chats[s]);
    }
  }

  lemma PushMediaPlaces(c: D.Config, st: State, k: nat, m: MP.Media, timer: Option<nat>, st': State)
    requires Inv(st) && Next(c, st, PushMedia(k, m, timer), st')
    ensures MovesOnly(st, st')
  {
    hide MP.Conserved, MP.HandedOf, ChatOk, ChatPlace, MediaOk, ItemOk;
  }

  /** What was handed on stays handed on. */
  lemma HandMediaOk(c: D.Config, st: State, key: MP.Key, handler: nat, st': State)
    requires Inv(st) && Next(c, st, HandMedia(key, handler), st')
    ensures MediaOk(st'.items, st'.media)
    ensures forall x :: MP.HandedOf(st.media.handed, x) <= MP.HandedOf(st'.media.handed, x)
  {
    hide MP.Conserved, MP.HandedOf, ChatOk, ItemOk;
    MP.FlushConserves(st.media.pushes, st.media.handed, st.media.buckets, key, handler);
    forall x
      ensures MP.HandedOf(st.media.handed, x) <= MP.HandedOf(st'.media.handed, x)
    {
      HandedGrows(st.media.handed, st'.media.handed[|st.media.handed|], x);
    }
  }

  lemma HandMediaKeeps(c: D.Config, st: State, key: MP.Key, handler: nat, st': State)
    requires Inv(st) && Next(c, st, HandMedia(key, handler), st')
    ensures Inv(st') && MovesOnly(st, st')
  {
    hide MP.Conserved, MP.HandedOf, MP.KeyOf, H.Sound, Begun, ChatPlace;
    HandMediaOk(c, st, key, handler, st');
    forall x
      ensures Taken(st'.media, x) == Taken(st.media, x)
    {
      TakenSame(st.media, st'.media, x);
    }
    forall j | 0 <= j < |st'.items|
      ensures ItemOk(st', j)
    {
      assert ItemOk(st, j);
    }
  }

  lemma TakenSame(m: Batcher, m': Batcher, key: MP.Key)
    requires m'.started == m.started && MP.HandedOf(m.handed, key) <= MP.HandedOf(m'.handed, key)
    requires StartedOf(m, key) <= |MP.HandedOf(m.handed, key)|
    ensures Taken(m', key) == Taken(m, key)
  {
    hide MP.HandedOf;
  }

  // ---- handlers start ------------------------------------------------------------------------------

  /** The scope has begun one more of its entries, the call `t` of delivery `k`. */
  ghost predicate BeginsNext(st: State, scope: string, k: nat, t: nat, st': State) {
    && scope in st.chats && k < |st.items| && st.items[k].address == InChat(scope, t) && st.items[k].stage == Travelling
    && var ch := st.chats[scope];
       && ch.started < |ch.h.order| && Begun(ch.(started := ch.started + 1)) == Begun(ch) + {t}
       && st' == Begin(st, k).(chats := st.chats[scope := ch.(started := ch.started + 1)])
  }

  /** A delivery that is consumed from a queue has not been handled before. */
  lemma StartChatIsFirst(c: D.Config, st: State, scope: string, st': State) returns (k: nat, t: nat)
    requires Inv(st) && Next(c, st, StartChat(scope), st')
    ensures BeginsNext(st, scope, k, t, st')
    ensures ChatPlace(st.chats[scope].h, t) == D.TaskQueue && t !in Begun(st.chats[scope])
  {
    hide MediaOk, H.Sound;
    var ch := st.chats[scope];
    assert ChatOk(st.items, scope, ch);
    var n, order := ch.started, ch.h.order;
    t := order[n].ticket;
    k := ch.owners[t];
    assert ItemOk(st, k);
    NextIsNew(ch.h, n);
    assert order[n] in order;
    assert order[..n + 1] == order[..n] + [order[n]];
    TicketsConcat(order[..n], [order[n]]);
    TicketsOne(order[n]);
  }

  lemma StartChatInv(st: State, scope: string, k: nat, t: nat, st': State)
    requires Inv(st) && BeginsNext(st, scope, k, t, st')
    ensures Inv(st')
  {
    hide H.Sound, Begun, MP.Conserved, MP.HandedOf, MP.KeyOf, Taken;
    assert ItemOk(st, k);
    forall s | s in st'.chats
      ensures ChatOk(st'.items, s, st'.chats[s])
    {
      assert ChatOk(st.items, s, st.chats[s]);
    }
    assert MediaOk(st'.items, st'.media);
    forall j | 0 <= j < |st'.items|
      ensures ItemOk(st', j)
    {
      assert ItemOk(st, j);
    }
  }

  lemma StartChatPlaces(st: State, scope: string, k: nat, t: nat, st': State)
    requires BeginsNext(st, scope, k, t, st') && ChatPlace(st.chats[scope].h, t) == D.TaskQueue
    ensures EntersOnly(st, st', k)
  {
    hide Begun, ChatPlace, MediaPlace;
  }

  lemma StartMediaIsFirst(c: D.Config, st: State, key: MP.Key, st': State) returns (k: nat, i: nat)
    requires Inv(st) && Next(c, st, StartMedia(key), st')
    ensures var n, m := StartedOf(st.media, key), st.media;
      && k < |st.items| && st.items[k].address == InMedia(i) && st.items[k].stage == Travelling
      && i < |m.pushes| && MP.KeyOf(m.pushes[i]) == key
      && st' == Begin(st, k).(media := m.(started := m.started[key := n + 1]))
      && n < |MP.HandedOf(m.handed, key)|
      && Taken(st'.media, key) == Taken(m, key) + [m.pushes[i]] && m.pushes[i] !in Taken(m, key)
  {
    hide ChatOk, MP.Conserved, MP.HandedOf;
    var m, n := st.media, StartedOf(st.media, key);
    var handed := MP.HandedOf(m.handed, key);
    k := handed[n].id;
    TagsDiffer(st.items, m);
    HandedArePushes(m, key);
    assert handed[n] in handed;
    i :| 0 <= i < |m.pushes| && m.pushes[i] == handed[n];
    assert ItemOk(st, k);
    assert handed[..n + 1] == handed[..n] + [handed[n]];
    assert forall p :: 0 <= p < n ==> handed[p].id != handed[n].id;
  }

  lemma StartMediaInv(st: State, key: MP.Key, k: nat, i: nat, st': State)
    requires Inv(st) && k < |st.items| && st.items[k].address == InMedia(i) && st.items[k].stage == Travelling
    requires i < |st.media.pushes| && MP.KeyOf(st.media.pushes[i]) == key
    requires st' == Begin(st, k).(media := st.media.(started := st.media.started[key := StartedOf(st.media, key) + 1]))
    requires StartedOf(st.media, key) < |MP.HandedOf(st.media.handed, key)|
    requires Taken(st'.media, key) == Taken(st.media, key) + [st.media.pushes[i]]
    ensures Inv(st')
  {
    hide H.Sound, Begun, MP.Conserved, MP.HandedOf, MP.KeyOf;
    TagsDiffer(st.items, st.media);
    forall s | s in st'.chats
      ensures ChatOk(st'.items, s, st'.chats[s])
    {
      assert ChatOk(st.items, s, st.chats[s]);
    }
    assert MediaOk(st'.items, st'.media);
    assert ItemOk(st, k);
    assert forall x :: x != key ==> Taken(st'.media, x) == Taken(st.media, x);
    forall j | 0 <= j < |st'.items|
      ensures ItemOk(st', j)
    {
      assert ItemOk(st, j);
    }
  }

  lemma StartMediaPlaces(st: State, key: MP.Key, k: nat, i: nat, st': State)
    requires k < |st.items| && st.items[k].address == InMedia(i) && st.items[k].stage == Travelling
    requires st' == Begin(st, k).(media := st.media.(started := st.media.started[key := StartedOf(st.media, key) + 1]))
    ensures EntersOnly(st, st', k)
  {
    hide MP.HandedOf, ChatPlace;
  }

  // ---- the other steps -----------------------------------------------------------------------------

  /** One item changes its stage, or an item without a queue goes straight to its handler. */
  ghost predicate OnlyStage(st: State, st': State, k: nat) {
    && k < |st.items| && st'.chats == st.chats && st'.media == st.media
    && |st'.items| == |st.items| && (forall j :: 0 <= j < |st.items| && j != k ==> st'.items[j] == st.items[j])
    && st'.items[k].stage != Travelling
    && ((st'.items[k].address == st.items[k].address && st.items[k].stage != Travelling)
        || (Unrouted(st.items[k]) && st'.items[k].address == Direct))
  }

  lemma OnlyStageKeeps(st: State, st': State, k: nat)
    requires Inv(st) && OnlyStage(st, st', k)
    ensures Inv(st')
  {
    hide H.Sound, Begun, MP.Conserved, MP.HandedOf, MP.KeyOf, Taken;
    assert ItemOk(st, k);
    forall s | s in st'.chats
      ensures ChatOk(st'.items, s, st'.chats[s])
    {
      assert ChatOk(st.items, s, st.chats[s]);
    }
    assert MediaOk(st'.items, st'.media);
    forall j | 0 <= j < |st'.items|
      ensures ItemOk(st', j)
    {
      assert ItemOk(st, j);
    }
  }

  lemma OnlyStagePlaces(st: State, st': State, k: nat)
    requires OnlyStage(st, st', k)
    ensures forall j :: 0 <= j < |st.items| && j != k ==> PlaceOf(st', st'.items[j]) == PlaceOf(st, st.items[j])
  {
    hide ChatPlace, MediaPlace;
  }

  lemma StartDirectKeeps(c: D.Config, st: State, k: nat, st': State)
    requires Inv(st) && Next(c, st, StartDirect(k), st')
    ensures Inv(st') && EntersOnly(st, st', k)
  {
    hide Inv, ChatPlace, MediaPlace;
    OnlyStageKeeps(st, st', k);
    OnlyStagePlaces(st, st', k);
  }

  lemma MarkKeeps(c: D.Config, st: State, k: nat, st': State)
    requires Inv(st) && Next(c, st, Mark(k), st')
    ensures Inv(st') && D.Next(c, Abs(st), D.Mark(k), Abs(st'))
  {
    hide Inv, ChatPlace, MediaPlace, Added, D.Touch;
    OnlyStageKeeps(st, st', k);
    OnlyStagePlaces(st, st', k);
    assert Deliveries(st') == Deliveries(st)[k := Deliveries(st)[k].(place := D.MarkedSeen)];
  }

  lemma ReleaseKeeps(c: D.Config, st: State, k: nat, st': State)
    requires Inv(st) && Next(c, st, Release(k), st')
    ensures Inv(st') && D.Next(c, Abs(st), D.Release(k), Abs(st'))
  {
    hide Inv, ChatPlace, MediaPlace;
    OnlyStageKeeps(st, st', k);
    OnlyStagePlaces(st, st', k);
    assert Deliveries(st') == Deliveries(st)[k := Deliveries(st)[k].(place := D.Done)];
  }

  /** A new item is at the gate. */
  lemma GrowsKeeps(st: State, st': State)
    requires Inv(st) && st'.chats == st.chats && st'.media == st.media
    requires st.items <= st'.items && forall k :: |st.items| <= k < |st'.items| ==> AtGate(st', k)
    ensures Inv(st')
  {
    hide H.Sound, Begun, MP.Conserved, MP.HandedOf, MP.KeyOf, Taken;
    forall s | s in st'.chats
      ensures ChatOk(st'.items, s, st'.chats[s])
    {
      assert ChatOk(st.items, s, st.chats[s]);
    }
    assert MediaOk(st'.items, st'.media);
    forall j | 0 <= j < |st'.items|
      ensures ItemOk(st', j)
    {
      if j < |st.items| {
        assert ItemOk(st, j) && st'.items[j] == st.items[j];
      } else {
        assert AtGate(st', j);
      }
    }
  }

  /** The items after the gate has answered. */
  function Gated(st: State, id: string, accepted: bool): seq<Item> {
    if accepted then st.items + [Item(id, st.clock, Nowhere, Travelling)] else st.items
  }

  lemma GatedPlaces(st: State, id: string, accepted: bool, st': State)
    requires st'.items == Gated(st, id, accepted) && st'.chats == st.chats && st'.media == st.media
    ensures Deliveries(st') == if accepted then Deliveries(st) + [D.Delivery(id, st.clock, D.Gated)] else Deliveries(st)
  {
    hide ChatPlace, MediaPlace;
  }

  lemma OfferRefines(c: D.Config, st: State, id: string, shared: bool, passes: bool, accepted: bool, st': State)
    requires Sized(st.seen, c.settings)
    requires SP.Admission(c.settings, c.lockTtl, id, st.clock, st.wall, shared, passes, st.locks, st.seen, st'.locks, st'.seen, accepted)
    requires st' == st.(locks := st'.locks, seen := st'.seen, items := Gated(st, id, accepted), completed := D.Touch(st.completed, id))
    ensures D.Next(c, Abs(st), D.Offer(id, shared, passes), Abs(st'))
  {
    hide PlaceOf, SP.Admission, D.Touch, Deliveries, Gated, Sized;
    GatedPlaces(st, id, accepted, st');
  }

  lemma OfferKeeps(c: D.Config, st: State, id: string, shared: bool, passes: bool, st': State)
    requires Inv(st) && Next(c, st, Offer(id, shared, passes), st')
    ensures Inv(st') && D.Next(c, Abs(st), D.Offer(id, shared, passes), Abs(st'))
  {
    hide Inv, PlaceOf, SP.Admission, D.Touch, Deliveries, D.Next, Abs;
    var accepted: bool :| SP.Admission(c.settings, c.lockTtl, id, st.clock, st.wall, shared, passes, st.locks, st.seen, st'.locks, st'.seen, accepted)
      && st' == st.(locks := st'.locks, seen := st'.seen, items := Gated(st, id, accepted), completed := D.Touch(st.completed, id));
    GrowsKeeps(st, st');
    OfferRefines(c, st, id, shared, passes, accepted, st');
  }

  lemma QuietKeeps(c: D.Config, st: State, step: Step, st': State) returns (a: D.Step)
    requires Inv(st) && Next(c, st, step, st') && (step.Tick? || step.LightAsk? || step.LightAdd?)
    ensures Inv(st') && D.Next(c, Abs(st), a, Abs(st')) && !a.Offer? && (a.Tick? ==> step.Tick?)
  {
    hide Inv, ChatPlace, MediaPlace, Asked, Added, D.Touch;
    GrowsKeeps(st, st');
    assert Deliveries(st') == Deliveries(st);
    match step {
      case Tick(clock, wall) => a := D.Tick(clock, wall);
      case LightAsk(id, shared) => a := D.LightAsk(id, shared);
      case LightAdd(id) => a := D.LightAdd(id);
    }
  }

  /** The history of a scope after a step that calls it. */
  function CalledHistory(st: State, step: Step): H.History
    requires step.PushChat? || step.RunChat?
  {
    var h := ChatOf(st, step.scope).h;
    if step.PushChat? then H.Wait(h, H.Pushed(step.msg, step.handler))
    else if step.held then H.Defer(h, H.Ran(step.task)) else H.Place(h, H.Ran(step.task))
  }

  lemma CallJoins(c: D.Config, st: State, step: Step, st': State)
    requires Next(c, st, step, st') && (step.PushChat? || step.RunChat?)
    ensures Joins(st, step.k, step.scope, CalledHistory(st, step), st')
  {
    assert Calls(ChatOf(st, step.scope).h, CalledHistory(st, step));
  }

  lemma InvHolds(st: State)
    requires forall scope :: scope in st.chats ==> ChatOk(st.items, scope, st.chats[scope])
    requires MediaOk(st.items, st.media) && forall k :: 0 <= k < |st.items| ==> ItemOk(st, k)
    ensures Inv(st)
  {
  }

  lemma NextSized(c: D.Config, st: State, step: Step, st': State)
    requires Next(c, st, step, st')
    ensures Sized(st.seen, c.settings)
  {
  }

  /** An item on no queue changes what it waits for. */
  lemma WaitsKeep(c: D.Config, st: State, step: Step, st': State)
    requires Inv(st) && Next(c, st, step, st') && (step.BeginFlush? || step.FlushNext?)
    ensures Inv(st') && MovesOnly(st, st')
  {
    hide H.Sound, Begun, MP.Conserved, MP.HandedOf, MP.KeyOf, Taken, ChatPlace, MediaPlace;
    assert ItemOk(st, step.k);
    forall s | s in st'.chats
      ensures ChatOk(st'.items, s, st'.chats[s])
    {
      assert ChatOk(st.items, s, st.chats[s]);
    }
    assert MediaOk(st'.items, st'.media);
    forall j | 0 <= j < |st'.items|
      ensures ItemOk(st', j)
    {
      assert ItemOk(st, j);
    }
  }

  /** A step that only moves deliveries between queues. */
  lemma MovesKeep(c: D.Config, st: State, step: Step, st': State)
    requires Inv(st) && Next(c, st, step, st')
    requires
      step.PushChat? || step.RunChat? || step.PushMedia? || step.MoveChat? || step.HandMedia? || step.BeginFlush? || step.FlushNext?
    ensures Inv(st') && MovesOnly(st, st')
  {
    hide Inv, Next, MovesOnly, Joins, CalledHistory, ChatOk, ItemOk, MediaOk;
    if step.PushMedia? {
      PushMediaOk(c, st, step.k, step.m, step.timer, st');
      PushMediaItems(c, st, step.k, step.m, step.timer, st');
      InvHolds(st');
      PushMediaPlaces(c, st, step.k, step.m, step.timer, st');
    } else if step.MoveChat? {
      MoveChatKeeps(c, st, step.scope, step.move, st');
    } else if step.HandMedia? {
      HandMediaKeeps(c, st, step.key, step.handler, st');
    } else if step.BeginFlush? || step.FlushNext? {
      WaitsKeep(c, st, step, st');
    } else {
      CallJoins(c, st, step, st');
      forall s | s in st'.chats
        ensures ChatOk(st'.items, s, st'.chats[s])
      {
        JoinChat(st, step.k, step.scope, CalledHistory(st, step), st', s);
      }
      JoinItems(st, step.k, step.scope, CalledHistory(st, step), st');
      JoinMediaOk(st, step.k, step.scope, CalledHistory(st, step), st');
      InvHolds(st');
      JoinPlaces(st, step.k, step.scope, CalledHistory(st, step), st');
    }
  }

  /** A step that starts a handler. */
  lemma StartsKeep(c: D.Config, st: State, step: Step, st': State) returns (k: nat)
    requires Inv(st) && Next(c, st, step, st') && (step.StartChat? || step.StartMedia? || step.StartDirect?)
    ensures Inv(st') && EntersOnly(st, st', k)
  {
    hide Inv, Next, EntersOnly, BeginsNext, ChatPlace, Taken, Begin, MP.HandedOf, MP.KeyOf;
    if step.StartChat? {
      var t;
      k, t := StartChatIsFirst(c, st, step.scope, st');
      StartChatInv(st, step.scope, k, t, st');
      StartChatPlaces(st, step.scope, k, t, st');
    } else if step.StartMedia? {
      var i;
      k, i := StartMediaIsFirst(c, st, step.key, st');
      StartMediaInv(st, step.key, k, i, st');
      StartMediaPlaces(st, step.key, k, i, st');
    } else {
      k := step.k;
      StartDirectKeeps(c, st, k, st');
    }
  }

  /** Every step keeps the invariant and is a step of the abstract system. */
  lemma NextRefines(c: D.Config, st: State, step: Step, st': State) returns (a: D.Step)
    requires Inv(st) && Next(c, st, step, st')
    ensures Inv(st') && D.Next(c, Abs(st), a, Abs(st'))
    ensures a.Offer? ==> step.Offer? && a.id == step.id
    ensures a.Tick? ==> step.Tick?
  {
    hide Inv, Next, D.Next, Abs, Places, MovesOnly, EntersOnly;
    NextSized(c, st, step, st');
    match step {
      case Mark(k) =>
        MarkKeeps(c, st, k, st');
        a := D.Mark(k);
      case Release(k) =>
        ReleaseKeeps(c, st, k, st');
        a := D.Release(k);
      case Offer(id, shared, passes) =>
        OfferKeeps(c, st, id, shared, passes, st');
        a := D.Offer(id, shared, passes);
      case _ =>
        if step.Tick? || step.LightAsk? || step.LightAdd? {
          a := QuietKeeps(c, st, step, st');
        } else if step.StartChat? || step.StartMedia? || step.StartDirect? {
          var k := StartsKeep(c, st, step, st');
          EnterRefines(c, st, st', k);
          a := D.Enter(k);
        } else {
          MovesKeep(c, st, step, st');
          MoveRefines(c, st, st');
          a := D.Move(Places(st'));
        }
    }
  }

  // ---- runs ----------------------------------------------------------------------------------------

  ghost predicate Run(c: D.Config, states: seq<State>, steps: seq<Step>) {
    && |states| == |steps| + 1 && states[0] == Init(states[0].wall, states[0].mediaOn)
    && forall i :: 0 <= i < |steps| ==> Next(c, states[i], steps[i], states[i + 1])
  }

  /** The surroundings keep to the terms. */
  ghost predicate Keeps(t: D.Terms, states: seq<State>, steps: seq<Step>) {
    && |states| == |steps| + 1
    && (forall i :: 0 <= i < |states| ==> D.Within(t, Abs(states[i])))
    && forall i :: 0 <= i < |steps| && steps[i].Offer? ==> D.Soon(t, Abs(states[i]), steps[i].id)
  }

  function Abstracted(states: seq<State>): (abs: seq<D.State>)
    ensures |abs| == |states| && forall i :: 0 <= i < |abs| ==> abs[i] == Abs(states[i])
  {
    seq(|states|, i requires 0 <= i < |states| => Abs(states[i]))
  }

  lemma InitRefines(wall: real, mediaOn: bool)
    ensures Inv(Init(wall, mediaOn)) && Abs(Init(wall, mediaOn)) == D.Init(wall)
  {
    assert Deliveries(Init(wall, mediaOn)) == [];
  }

  /** Every run is a run of the abstract system, under the same terms. */
  lemma {:induction false} RunRefines(c: D.Config, t: D.Terms, states: seq<State>, steps: seq<Step>) returns (abs: seq<D.Step>)
    requires Run(c, states, steps) && Keeps(t, states, steps)
    ensures Inv(states[|steps|]) && D.Run(c, Abstracted(states), abs) && D.Keeps(t, Abstracted(states), abs)
    decreases |steps|
  {
    hide Inv, Next, D.Next, D.Within, D.Soon, Abs;
    var n := |steps|;
    if n == 0 {
      InitRefines(states[0].wall, states[0].mediaOn);
      abs := [];
    } else {
      var front, before := states[..n], steps[..n - 1];
      assert forall i :: 0 <= i < n ==> front[i] == states[i];
      assert forall i :: 0 <= i < n - 1 ==> before[i] == steps[i] && Next(c, states[i], steps[i], states[i + 1]);
      var done := RunRefines(c, t, front, before);
      assert Next(c, states[n - 1], steps[n - 1], states[n - 1 + 1]);
      var a := NextRefines(c, states[n - 1], steps[n - 1], states[n]);
      abs := done + [a];
      Snoc(c, t, states, steps, done, a);
    }
  }

  lemma Snoc(c: D.Config, t: D.Terms, states: seq<State>, steps: seq<Step>, done: seq<D.Step>, a: D.Step)
    requires |states| == |steps| + 1 && |steps| > 0 && Keeps(t, states, steps)
    requires var front := states[..|steps|]; D.Run(c, Abstracted(front), done) && D.Keeps(t, Abstracted(front), done)
    requires D.Next(c, Abs(states[|steps| - 1]), a, Abs(states[|steps|]))
    requires a.Offer? ==> steps[|steps| - 1].Offer? && a.id == steps[|steps| - 1].id
    ensures D.Run(c, Abstracted(states), done + [a]) && D.Keeps(t, Abstracted(states), done + [a])
  {
    hide D.Next, D.Within, D.Soon, Abs;
    var n, abs, all := |steps|, done + [a], Abstracted(states);
    var short := Abstracted(states[..n]);
    assert forall i :: 0 <= i < n ==> all[i] == short[i];
    forall i | 0 <= i < n
      ensures D.Next(c, all[i], abs[i], all[i + 1])
      ensures abs[i].Offer? ==> D.Soon(t, all[i], abs[i].id)
    {
      if i < n - 1 {
        assert D.Next(c, short[i], done[i], short[i + 1]);
      }
    }
  }

  /** No id reaches a handler twice, in any run of the pipeline under terms that fit. */
  lemma AtMostOnce(c: D.Config, t: D.Terms, states: seq<State>, steps: seq<Step>)
    requires Run(c, states, steps) && Keeps(t, states, steps) && D.Fits(c, t)
    ensures OD.Distinct(states[|steps|].entered)
  {
    hide D.Run, D.Keeps, D.Fits;
    var abs := RunRefines(c, t, states, steps);
    D.AtMostOnceIff(c, t);
    assert |abs| == |steps| by { SameLength(c, Abstracted(states), abs); }
    assert Abstracted(states)[|abs|].entered == states[|steps|].entered;
  }

  lemma SameLength(c: D.Config, states: seq<D.State>, steps: seq<D.Step>)
    requires D.Run(c, states, steps)
    ensures |states| == |steps| + 1
  {
  }

  // ---- the ways to the handler -----------------------------------------------------------------------

  /** The steps lead through the states, the first of which is `st`, and at their end the handler of delivery
      `k` has started, which it had not before. */
  ghost predicate Starts(c: D.Config, st: State, k: nat, steps: seq<Step>, states: seq<State>) {
    && |states| == |steps| + 1 && states[0] == st && k < |st.items| && st.items[k].stage == Travelling
    && (forall i :: 0 <= i < |steps| ==> Next(c, states[i], steps[i], states[i + 1]))
    && var last := states[|steps|];
       && |last.items| == |st.items| && last.items[k].stage == Handling && last.entered == st.entered + [st.items[k].id]
       && last.locks == st.locks && last.seen == st.seen && forall j :: 0 <= j < |st.items| && j != k ==> last.items[j] == st.items[j]
  }

  /** The state with a new call of a new scope. */
  function WithChat(st: State, k: nat, scope: string, h: H.History): State
    requires k < |st.items|
  {
    st.(items := Send(st, k, InChat(scope, 0)), chats := st.chats[scope := Chat(h, [k], 0)])
  }

  lemma FirstOwner(k: nat)
    ensures [] + [k] == [k]
  {
  }

  lemma ScopeStarts(c: D.Config, st: State, k: nat, scope: string, h: H.History)
    requires Sized(st.seen, c.settings) && k < |st.items| && |h.order| == 1 && h.order[0].ticket == 0
    ensures var st' := WithChat(st, k, scope, h);
      Next(c, st', StartChat(scope), Begin(st', k).(chats := st'.chats[scope := Chat(h, [k], 1)]))
  {
    hide Sized;
  }

  /** A message pushed to a scope that is new starts once it is flushed. */
  lemma PushedMessageStarts(c: D.Config, st: State, k: nat, scope: string, msg: Msg.InboundMessage, handler: nat)
    returns (steps: seq<Step>, states: seq<State>)
    requires Sized(st.seen, c.settings) && AtGate(st, k) && !st.mediaOn && scope !in st.chats && msg.id == st.items[k].id
    ensures steps == [PushChat(k, scope, msg, handler), MoveChat(scope, Flush(1)), StartChat(scope)]
    ensures Starts(c, st, k, steps, states)
  {
    hide Sized;
    var h1 := H.Wait(H.NO_HISTORY, H.Pushed(msg, handler));
    var h2 := H.Flush(h1, 1);
    var s1, s2 := WithChat(st, k, scope, h1), WithChat(st, k, scope, h2);
    var s3 := Begin(s2, k).(chats := s2.chats[scope := Chat(h2, [k], 1)]);
    steps := [PushChat(k, scope, msg, handler), MoveChat(scope, Flush(1)), StartChat(scope)];
    states := [st, s1, s2, s3];
    assert Called(NO_CHAT, k, h1) == Chat(h1, [k], 0) by { FirstOwner(k); }
    assert Next(c, st, steps[0], s1);
    assert ChatOf(s2, scope).h == h2 && s2 == s1.(chats := s1.chats[scope := s1.chats[scope].(h := h2)]);
    assert Next(c, s1, steps[1], s2);
    ScopeStarts(c, st, k, scope, h2);
    hide Next;
    assert Next(c, s2, steps[2], s3);
  }

  /** A run in a scope that is new starts at once. */
  lemma RunStarts(c: D.Config, st: State, k: nat, scope: string, task: nat) returns (steps: seq<Step>, states: seq<State>)
    requires Sized(st.seen, c.settings) && AtGate(st, k) && scope !in st.chats
    ensures steps == [RunChat(k, scope, task, false), StartChat(scope)] && Starts(c, st, k, steps, states)
  {
    hide Sized;
    var h := H.Place(H.NO_HISTORY, H.Ran(task));
    var s1 := WithChat(st, k, scope, h);
    var s2 := Begin(s1, k).(chats := s1.chats[scope := Chat(h, [k], 1)]);
    steps, states := [RunChat(k, scope, task, false), StartChat(scope)], [st, s1, s2];
    assert Called(NO_CHAT, k, h) == Chat(h, [k], 0) by { FirstOwner(k); }
    assert Next(c, st, steps[0], s1);
    ScopeStarts(c, st, k, scope, h);
    hide Next;
    assert Next(c, s1, steps[1], s2);
  }

  /** Delivery `k` alone in its bucket. */
  function InBucket(st: State, k: nat, m: MP.Media, timer: Option<nat>): State
    requires k < |st.items|
  {
    st.(items := Send(st, k, InMedia(|st.media.pushes|)),
        media := st.media.(pushes := st.media.pushes + [m], buckets := st.media.buckets[MP.KeyOf(m) := MP.Bucket([m], timer)]))
  }

  function HandedOut(st: State, m: MP.Media, handler: nat): State {
    st.(media := st.media.(buckets := st.media.buckets - {MP.KeyOf(m)},
                           handed := st.media.handed + [MP.Handed(handler, MP.KeyOf(m), MP.Attach([m]))]))
  }

  lemma BucketSteps(c: D.Config, st: State, k: nat, m: MP.Media, timer: Option<nat>, handler: nat)
    requires Sized(st.seen, c.settings) && AtGate(st, k) && m.id == k && MP.KeyOf(m) !in st.media.buckets
    ensures Next(c, st, PushMedia(k, m, timer), InBucket(st, k, m, timer))
    ensures Next(c, InBucket(st, k, m, timer), HandMedia(MP.KeyOf(m), handler), HandedOut(InBucket(st, k, m, timer), m, handler))
  {
    hide Sized, MP.KeyOf, MP.Attach, MP.HandedOf;
    assert MP.Waiting(st.media.buckets, MP.KeyOf(m)) + [m] == [m];
  }

  lemma TakenNext(c: D.Config, st: State, k: nat, m: MP.Media, n: nat)
    requires Sized(st.seen, c.settings) && k < |st.items| && m.id == k
    requires n == StartedOf(st.media, MP.KeyOf(m)) < |MP.HandedOf(st.media.handed, MP.KeyOf(m))|
    requires MP.HandedOf(st.media.handed, MP.KeyOf(m))[n] == m
    ensures Next(c, st, StartMedia(MP.KeyOf(m)), Begin(st, k).(media := st.media.(started := st.media.started[MP.KeyOf(m) := n + 1])))
  {
    hide Sized, MP.KeyOf, MP.HandedOf;
  }

  /** Media starts once its bucket is handed on. */
  lemma MediaStarts(c: D.Config, st: State, k: nat, m: MP.Media, timer: Option<nat>, handler: nat)
    returns (steps: seq<Step>, states: seq<State>)
    requires Sized(st.seen, c.settings) && AtGate(st, k) && m.id == k
    requires MP.KeyOf(m) !in st.media.buckets && StartedOf(st.media, MP.KeyOf(m)) == |MP.HandedOf(st.media.handed, MP.KeyOf(m))|
    ensures steps == [PushMedia(k, m, timer), HandMedia(MP.KeyOf(m), handler), StartMedia(MP.KeyOf(m))]
    ensures Starts(c, st, k, steps, states)
  {
    hide Sized, MP.KeyOf, MP.HandedOf, Next;
    var key, n := MP.KeyOf(m), StartedOf(st.media, MP.KeyOf(m));
    var s1 := InBucket(st, k, m, timer);
    var s2 := HandedOut(s1, m, handler);
    var s3 := Begin(s2, k).(media := s2.media.(started := s2.media.started[key := n + 1]));
    BucketSteps(c, st, k, m, timer, handler);
    HandedNext(st.media.handed, MP.Handed(handler, key, MP.Attach([m])), key);
    assert MP.HandedOf(s2.media.handed, key)[n] == m;
    TakenNext(c, s2, k, m, n);
    steps := [PushMedia(k, m, timer), HandMedia(key, handler), StartMedia(key)];
    states := [st, s1, s2, s3];
  }

  lemma HandedNext(handed: seq<MP.Handed>, h: MP.Handed, key: MP.Key)
    ensures MP.HandedOf(handed + [h], key) == MP.HandedOf(handed, key) + if h.key == key then MP.SourcesOf(h.carrier) else []
  {
    assert (handed + [h])[..|handed|] == handed;
  }

  /** With media batching another kind of message goes on once its chat's buckets are gone, here at once. */
  lemma FlushedMessageStarts(c: D.Config, st: State, k: nat, chatId: string) returns (steps: seq<Step>, states: seq<State>)
    requires Sized(st.seen, c.settings) && AtGate(st, k) && st.mediaOn
    requires forall key :: key in st.media.buckets ==> key.chatId != chatId
    ensures steps == [BeginFlush(k, chatId), StartDirect(k)] && Starts(c, st, k, steps, states)
  {
    hide Sized;
    var s1 := st.(items := Send(st, k, Flushing(chatId, {}, |st.media.pushes|)));
    var s2 := Begin(s1.(items := Send(s1, k, Direct)), k);
    steps, states := [BeginFlush(k, chatId), StartDirect(k)], [st, s1, s2];
    assert (set key | key in st.media.buckets && key.chatId == chatId) == {};
    assert Next(c, st, steps[0], s1);
    assert Next(c, s1, steps[1], s2);
    hide Next;
  }

  // ---- media before text ---------------------------------------------------------------------------

  /** For every key of the chat whose bucket is not waited for any more, everything that had been pushed
      when the flush began is handed on. */
  ghost predicate FlushedSoFar(m: Batcher, address: Address)
    requires address.Flushing?
  {
    && address.pushed <= |m.pushes|
    && forall key: MP.Key :: key.chatId == address.chatId && key !in address.keys ==>
         MP.CaughtUp(m.pushes[..address.pushed], m.handed, key)
  }

  ghost predicate FlushesOk(st: State) {
    forall k :: 0 <= k < |st.items| && st.items[k].address.Flushing? ==> FlushedSoFar(st.media, st.items[k].address)
  }

  /** The batcher only goes on. */
  ghost predicate Onward(m: Batcher, m': Batcher) {
    m.pushes <= m'.pushes && forall key :: MP.HandedOf(m.handed, key) <= MP.HandedOf(m'.handed, key)
  }

  lemma FlushedStays(m: Batcher, m': Batcher, address: Address)
    requires address.Flushing? && FlushedSoFar(m, address) && Onward(m, m')
    ensures FlushedSoFar(m', address)
  {
    hide MP.HandedOf, MP.PushesOf;
    assert m'.pushes[..address.pushed] == m.pushes[..address.pushed];
    forall key: MP.Key | key.chatId == address.chatId && key !in address.keys
      ensures MP.CaughtUp(m'.pushes[..address.pushed], m'.handed, key)
    {
      assert MP.CaughtUp(m.pushes[..address.pushed], m.handed, key);
    }
  }

  lemma MediaOnward(c: D.Config, st: State, step: Step, st': State)
    requires Next(c, st, step, st')
    ensures Onward(st.media, st'.media) && st'.mediaOn == st.mediaOn
  {
    hide SP.Admission, Asked, Added, D.Touch, Sized, Moves, MP.HandedOf, MP.Attach;
    if step.HandMedia? {
      forall key
        ensures MP.HandedOf(st.media.handed, key) <= MP.HandedOf(st'.media.handed, key)
      {
        HandedGrows(st.media.handed, st'.media.handed[|st.media.handed|], key);
      }
    }
  }

  /** An item that waits for a flush did so before, or begins to, or ticks off a bucket. */
  lemma WaitsAsBefore(c: D.Config, st: State, step: Step, st': State, k: nat)
    requires Next(c, st, step, st') && k < |st'.items| && st'.items[k].address.Flushing?
    ensures k < |st.items|
    ensures !(step.BeginFlush? && step.k == k) && !(step.FlushNext? && step.k == k) ==> st.items[k].address == st'.items[k].address
    ensures step.FlushNext? && step.k == k ==>
      st.items[k].address.Flushing? && st'.items[k].address == st.items[k].address.(keys := st.items[k].address.keys - {step.key})
  {
    hide MP.HandedOf, SP.Admission, Asked, Added, D.Touch, Sized, Moves, MP.Attach, MP.KeyOf;
  }

  lemma BeginFlushOk(c: D.Config, st: State, k: nat, chatId: string, st': State)
    requires MP.Conserved(st.media.pushes, st.media.handed, st.media.buckets) && Next(c, st, BeginFlush(k, chatId), st')
    ensures FlushedSoFar(st'.media, st'.items[k].address)
  {
    hide MP.HandedOf, MP.PushesOf, MP.Conserved, MP.CaughtUp;
    MP.AllCaughtUp(st.media.pushes, st.media.handed, st.media.buckets);
    assert st.media.pushes[..|st.media.pushes|] == st.media.pushes;
  }

  lemma FlushNextOk(c: D.Config, st: State, k: nat, key: MP.Key, st': State)
    requires MP.Conserved(st.media.pushes, st.media.handed, st.media.buckets) && Next(c, st, FlushNext(k, key), st')
    requires FlushedSoFar(st.media, st.items[k].address)
    ensures FlushedSoFar(st'.media, st'.items[k].address)
  {
    hide MP.HandedOf, MP.PushesOf, MP.Conserved, MP.CaughtUp;
    MP.CaughtUpLater(st.media.pushes[..st.items[k].address.pushed], st.media.pushes, st.media.handed, st.media.buckets, key);
  }

  lemma FlushesKeep(c: D.Config, st: State, step: Step, st': State)
    requires MP.Conserved(st.media.pushes, st.media.handed, st.media.buckets) && FlushesOk(st) && Next(c, st, step, st')
    ensures FlushesOk(st')
  {
    hide Next, Onward, FlushedSoFar, MP.Conserved;
    MediaOnward(c, st, step, st');
    forall k | 0 <= k < |st'.items| && st'.items[k].address.Flushing?
      ensures FlushedSoFar(st'.media, st'.items[k].address)
    {
      WaitsAsBefore(c, st, step, st', k);
      if step.BeginFlush? && step.k == k {
        BeginFlushOk(c, st, k, step.chatId, st');
      } else if step.FlushNext? && step.k == k {
        FlushNextOk(c, st, k, step.key, st');
      } else {
        FlushedStays(st.media, st'.media, st'.items[k].address);
      }
    }
  }

  lemma {:induction false} RunKeeps(c: D.Config, states: seq<State>, steps: seq<Step>, n: nat)
    requires Run(c, states, steps) && n < |states|
    ensures Inv(states[n]) && FlushesOk(states[n])
  {
    hide Next, Inv, FlushesOk, D.Next, Abs;
    if n == 0 {
      InitRefines(states[0].wall, states[0].mediaOn);
      NothingFlushes(states[0]);
    } else {
      RunKeeps(c, states, steps, n - 1);
      assert Next(c, states[n - 1], steps[n - 1], states[n - 1 + 1]);
      assert MP.Conserved(states[n - 1].media.pushes, states[n - 1].media.handed, states[n - 1].media.buckets) by {
        InvConserves(states[n - 1]);
      }
      FlushesKeep(c, states[n - 1], steps[n - 1], states[n]);
      var _ := NextRefines(c, states[n - 1], steps[n - 1], states[n]);
    }
  }

  lemma NothingFlushes(st: State)
    requires st.items == []
    ensures FlushesOk(st)
  {
  }

  lemma InvConserves(st: State)
    requires Inv(st)
    ensures MP.Conserved(st.media.pushes, st.media.handed, st.media.buckets)
  {
    hide ChatOk, ItemOk, MP.Conserved;
  }

  /** A flush has a beginning, and media pushed by then is still on record. */
  lemma {:induction false} FlushBegan(c: D.Config, states: seq<State>, steps: seq<Step>, n: nat, k: nat) returns (j: nat)
    requires Run(c, states, steps) && n < |states| && k < |states[n].items| && states[n].items[k].address.Flushing?
    ensures var a := states[n].items[k].address;
      j < n && steps[j] == BeginFlush(k, a.chatId) && a.pushed == |states[j].media.pushes|
      && states[j].media.pushes <= states[n].media.pushes
  {
    hide Next, Onward;
    assert n > 0;
    var st, step := states[n - 1], steps[n - 1];
    assert Next(c, states[n - 1], steps[n - 1], states[n - 1 + 1]);
    WaitsAsBefore(c, st, step, states[n], k);
    MediaOnward(c, st, step, states[n]);
    assert st.media.pushes <= states[n].media.pushes by { PushesStay(st.media, states[n].media); }
    if step.BeginFlush? && step.k == k {
      j := n - 1;
      BeginIs(c, st, k, step.chatId, states[n]);
    } else {
      j := FlushBegan(c, states, steps, n - 1, k);
    }
  }

  lemma PushesStay(m: Batcher, m': Batcher)
    requires Onward(m, m')
    ensures m.pushes <= m'.pushes
  {
  }

  lemma BeginIs(c: D.Config, st: State, k: nat, chatId: string, st': State)
    requires Next(c, st, BeginFlush(k, chatId), st')
    ensures k < |st'.items| && st'.items[k].address.Flushing?
    ensures st'.items[k].address.chatId == chatId && st'.items[k].address.pushed == |st.media.pushes|
  {
  }

  /** Media comes first: when a message of another kind is pushed to its chat, or goes straight to its
      handler, its flush has begun at some step before, and everything pushed to the chat's buckets by then has
      been handed on, in order. */
  lemma MediaBeforeText(c: D.Config, states: seq<State>, steps: seq<Step>, n: nat) returns (j: nat, chatId: string)
    requires Run(c, states, steps) && n < |steps| && states[n].mediaOn && (steps[n].PushChat? || steps[n].StartDirect?)
    ensures j < n && steps[j] == BeginFlush(steps[n].k, chatId)
    ensures steps[n].PushChat? ==> steps[n].scope == if chatId != "" then chatId else steps[n].msg.id
    ensures forall key: MP.Key :: key.chatId == chatId ==> MP.CaughtUp(states[j].media.pushes, states[n].media.handed, key)
    ensures forall m :: m in states[j].media.pushes && m.chatId == chatId ==>
      multiset(states[j].media.pushes)[m] <= multiset(MP.Delivered(states[n].media.handed))[m]
  {
    var st, k := states[n], steps[n].k;
    RunKeeps(c, states, steps, n);
    assert Next(c, states[n], steps[n], states[n + 1]);
    ReadyIs(c, st, steps[n], states[n + 1]);
    j := FlushBegan(c, states, steps, n, k);
    chatId := st.items[k].address.chatId;
    hide Next, Inv, Run, MP.CaughtUp, MP.Delivered;
    assert FlushedSoFar(st.media, st.items[k].address);
    assert st.media.pushes[..|states[j].media.pushes|] == states[j].media.pushes;
    MP.ChatDelivered(states[j].media.pushes, st.media.handed, chatId);
  }

  lemma ReadyIs(c: D.Config, st: State, step: Step, st': State)
    requires Next(c, st, step, st') && st.mediaOn && (step.PushChat? || step.StartDirect?)
    ensures Ready(st, step.k)
    ensures step.PushChat? ==>
      step.scope == if st.items[step.k].address.chatId != "" then st.items[step.k].address.chatId else step.msg.id
  {
  }

  // ---- and exactly under such terms ----------------------------------------------------------------

  /** A delivery that used no queue, as an item. */
  function Lifted(d: D.Delivery): Item {
    if d.place == D.Gated then Item(d.id, d.since, Nowhere, Travelling)
    else Item(d.id, d.since, Direct, if d.place == D.InHandler then Handling else if d.place == D.MarkedSeen then Marked else Finished)
  }

  function LiftedAll(ds: seq<D.Delivery>): (items: seq<Item>)
    ensures |items| == |ds| && forall k :: 0 <= k < |ds| ==> items[k] == Lifted(ds[k])
  {
    seq(|ds|, k requires 0 <= k < |ds| => Lifted(ds[k]))
  }

  function Lift(st: D.State): State {
    State(st.clock, st.wall, st.locks, st.seen, LiftedAll(st.deliveries), map[], Batcher([], map[], [], map[]), false, st.entered, st.completed)
  }

  /** No delivery is on a queue. */
  predicate Unqueued(st: D.State) {
    forall k :: 0 <= k < |st.deliveries| ==> st.deliveries[k].place in {D.Gated, D.InHandler, D.MarkedSeen, D.Done}
  }

  lemma AbsLift(st: D.State)
    requires Unqueued(st)
    ensures Abs(Lift(st)) == st
  {
    assert Deliveries(Lift(st)) == st.deliveries;
  }

  function LiftedStep(step: D.Step): Step
    requires !step.Move?
  {
    match step
    case Tick(clock, wall) => Tick(clock, wall)
    case Offer(id, shared, passes) => Offer(id, shared, passes)
    case LightAsk(id, shared) => LightAsk(id, shared)
    case LightAdd(id) => LightAdd(id)
    case Enter(k) => StartDirect(k)
    case Mark(k) => Mark(k)
    case Release(k) => Release(k)
  }

  lemma LiftOne(ds: seq<D.Delivery>, k: nat, to: D.Place)
    requires k < |ds|
    ensures LiftedAll(ds[k := ds[k].(place := to)]) == LiftedAll(ds)[k := Lifted(ds[k].(place := to))]
  {
  }

  lemma LiftMore(ds: seq<D.Delivery>, d: D.Delivery)
    ensures LiftedAll(ds + [d]) == LiftedAll(ds) + [Lifted(d)]
  {
  }

  lemma LiftAccepted(c: D.Config, st: D.State, id: string, shared: bool, passes: bool, accepted: bool, st': D.State)
    requires Sized(st.seen, c.settings)
    requires SP.Admission(c.settings, c.lockTtl, id, st.clock, st.wall, shared, passes, st.locks, st.seen, st'.locks, st'.seen, accepted)
    requires st' == st.(locks := st'.locks, seen := st'.seen,
                        deliveries := if accepted then st.deliveries + [D.Delivery(id, st.clock, D.Gated)] else st.deliveries,
                        completed := D.Touch(st.completed, id))
    ensures Next(c, Lift(st), Offer(id, shared, passes), Lift(st'))
  {
    hide SP.Admission, D.Touch, LiftedAll, Sized;
    LiftMore(st.deliveries, D.Delivery(id, st.clock, D.Gated));
  }

  lemma LiftOffer(c: D.Config, st: D.State, id: string, shared: bool, passes: bool, st': D.State)
    requires D.Next(c, st, D.Offer(id, shared, passes), st') && Unqueued(st)
    ensures Next(c, Lift(st), Offer(id, shared, passes), Lift(st')) && Unqueued(st')
  {
    hide SP.Admission, D.Touch, Lift, Next, Sized;
    var accepted: bool :| SP.Admission(c.settings, c.lockTtl, id, st.clock, st.wall, shared, passes, st.locks, st.seen, st'.locks, st'.seen, accepted)
      && st' == st.(locks := st'.locks, seen := st'.seen,
                    deliveries := if accepted then st.deliveries + [D.Delivery(id, st.clock, D.Gated)] else st.deliveries,
                    completed := D.Touch(st.completed, id));
    LiftAccepted(c, st, id, shared, passes, accepted, st');
  }

  lemma LiftPlace(c: D.Config, st: D.State, step: D.Step, st': D.State)
    requires D.Next(c, st, step, st') && D.Plain(st, step) && Unqueued(st) && (step.Enter? || step.Mark? || step.Release?)
    ensures Next(c, Lift(st), LiftedStep(step), Lift(st')) && Unqueued(st')
  {
    hide D.Touch, Added, LiftedAll, Sized;
    LiftOne(st.deliveries, step.k, if step.Enter? then D.InHandler else if step.Mark? then D.MarkedSeen else D.Done);
  }

  lemma LiftQuiet(c: D.Config, st: D.State, step: D.Step, st': D.State)
    requires D.Next(c, st, step, st') && Unqueued(st) && (step.Tick? || step.LightAsk? || step.LightAdd?)
    ensures Next(c, Lift(st), LiftedStep(step), Lift(st')) && Unqueued(st')
  {
    hide D.Touch, Asked, Added, LiftedAll, Sized;
  }

  lemma LiftNext(c: D.Config, st: D.State, step: D.Step, st': D.State)
    requires D.Next(c, st, step, st') && D.Plain(st, step) && Unqueued(st)
    ensures Next(c, Lift(st), LiftedStep(step), Lift(st')) && Unqueued(st')
  {
    hide D.Next, Next, Lift, Unqueued;
    if step.Offer? {
      LiftOffer(c, st, step.id, step.shared, step.passes, st');
    } else if step.Enter? || step.Mark? || step.Release? {
      LiftPlace(c, st, step, st');
    } else {
      LiftQuiet(c, st, step, st');
    }
  }

  lemma {:induction false} RunLifts(c: D.Config, states: seq<D.State>, steps: seq<D.Step>, n: nat)
    requires D.Run(c, states, steps) && D.AllPlain(states, steps) && n < |states|
    ensures Unqueued(states[n])
    ensures n < |steps| ==> Next(c, Lift(states[n]), LiftedStep(steps[n]), Lift(states[n + 1]))
  {
    hide D.Next, Next, Lift;
    if n > 0 {
      RunLifts(c, states, steps, n - 1);
      assert D.Next(c, states[n - 1], steps[n - 1], states[n - 1 + 1]);
      LiftNext(c, states[n - 1], steps[n - 1], states[n]);
    }
    if n < |steps| {
      LiftNext(c, states[n], steps[n], states[n + 1]);
    }
  }

  lemma LiftedRun(c: D.Config, t: D.Terms, states: seq<D.State>, steps: seq<D.Step>) returns (lifted: seq<State>, moves: seq<Step>)
    requires D.Run(c, states, steps) && D.Keeps(t, states, steps) && D.AllPlain(states, steps)
    ensures Run(c, lifted, moves) && Keeps(t, lifted, moves) && lifted[|moves|].entered == states[|steps|].entered
  {
    hide D.Next, Next, D.Within, D.Soon, Abs, Unqueued;
    lifted := seq(|states|, i requires 0 <= i < |states| => Lift(states[i]));
    moves := seq(|steps|, i requires 0 <= i < |steps| => LiftedStep(steps[i]));
    LiftInit(states[0].wall);
    forall i | 0 <= i < |states|
      ensures Abs(lifted[i]) == states[i]
      ensures i < |steps| ==> Next(c, lifted[i], moves[i], lifted[i + 1])
    {
      RunLifts(c, states, steps, i);
      AbsLift(states[i]);
    }
  }

  lemma LiftInit(wall: real)
    ensures Lift(D.Init(wall)) == Init(wall, false)
  {
  }

  /** No id reaches a handler twice, in any run of the whole pipeline that keeps to the terms, if and only
      if the terms fit the configuration. */
  lemma AtMostOnceIff(c: D.Config, t: D.Terms)
    ensures D.Fits(c, t) <==>
      forall states: seq<State>, steps: seq<Step> :: Run(c, states, steps) && Keeps(t, states, steps) ==> OD.Distinct(states[|steps|].entered)
  {
    hide D.Fits, Next, D.Within, D.Soon, D.Run, D.Keeps, D.AllPlain;
    if D.Fits(c, t) {
      forall states: seq<State>, steps: seq<Step> | Run(c, states, steps) && Keeps(t, states, steps)
        ensures OD.Distinct(states[|steps|].entered)
      {
        AtMostOnce(c, t, states, steps);
      }
    } else {
      var states, steps := D.Misfit(c, t);
      var lifted, moves := LiftedRun(c, t, states, steps);
    }
  }
}
