/** Rebuilding the tree of a merge-forward message from one flat list.

    Parsing of other message kinds, sender names and the fetch itself are left out; an item carries a
    payload that is passed through. */
module MergeForward {
  import opened Wrappers

  datatype Item = Item(messageId: string, upper: string, msgType: string, createTime: Option<int>, payload: nat)

  type Children = map<string, seq<Item>>

  function Time(it: Item): int {
    if it.createTime.Some? then it.createTime.value else 0
  }

  predicate IsRoot(it: Item, root: string) {
    it.messageId == root && it.upper == ""
  }

  function Parent(it: Item, root: string): string {
    if it.upper != "" then it.upper else root
  }

  // ---- grouping ------------------------------------------------------------------------------------

  /** The items below `p`, in list order. */
  function Below(items: seq<Item>, root: string, p: string): seq<Item> {
    if items == [] then []
    else
      var it := items[|items| - 1];
      Below(items[..|items| - 1], root, p) + if !IsRoot(it, root) && Parent(it, root) == p then [it] else []
  }

  function Insert(sorted: seq<Item>, it: Item): seq<Item> {
    if sorted == [] || Time(sorted[|sorted| - 1]) <= Time(it) then sorted + [it]
    else Insert(sorted[..|sorted| - 1], it) + [sorted[|sorted| - 1]]
  }

  /** `list.sort(key=...)`: by time, and stable. */
  function SortByTime(items: seq<Item>): seq<Item> {
    if items == [] then [] else Insert(SortByTime(items[..|items| - 1]), items[|items| - 1])
  }

  ghost predicate Ordered(items: seq<Item>) {
    forall i, j :: 0 <= i < j < |items| ==> Time(items[i]) <= Time(items[j])
  }

  /** The items of one instant, in order. */
  function AtTime(items: seq<Item>, t: int): seq<Item> {
    if items == [] then []
    else AtTime(items[..|items| - 1], t) + if Time(items[|items| - 1]) == t then [items[|items| - 1]] else []
  }

  lemma AtTimeSnoc(items: seq<Item>, it: Item, t: int)
    ensures AtTime(items + [it], t) == AtTime(items, t) + if Time(it) == t then [it] else []
  {
    assert (items + [it])[..|items|] == items;
  }

  lemma {:induction false} LaterNoneAt(items: seq<Item>, t: int)
    requires forall i :: 0 <= i < |items| ==> Time(items[i]) < t
    ensures AtTime(items, t) == []
  {
    if items != [] {
      LaterNoneAt(items[..|items| - 1], t);
    }
  }

  lemma {:induction false} InsertHas(sorted: seq<Item>, it: Item)
    ensures multiset(Insert(sorted, it)) == multiset(sorted) + multiset{it}
  {
    if sorted != [] {
      assert sorted == sorted[..|sorted| - 1] + [sorted[|sorted| - 1]];
      InsertHas(sorted[..|sorted| - 1], it);
    }
  }

  lemma OrderedSnoc(r: seq<Item>, last: Item)
    requires Ordered(r) && forall i :: 0 <= i < |r| ==> Time(r[i]) <= Time(last)
    ensures Ordered(r + [last])
  {
  }

  lemma {:induction false} InsertOrders(sorted: seq<Item>, it: Item)
    requires Ordered(sorted)
    ensures Ordered(Insert(sorted, it))
  {
    if sorted != [] && Time(sorted[|sorted| - 1]) > Time(it) {
      var front, last := sorted[..|sorted| - 1], sorted[|sorted| - 1];
      InsertOrders(front, it);
      InsertHas(front, it);
      var r := Insert(front, it);
      forall i | 0 <= i < |r|
        ensures Time(r[i]) <= Time(last)
      {
        assert r[i] in multiset(r);
        assert r[i] in multiset(front) + multiset{it};
      }
      OrderedSnoc(r, last);
    }
  }

  lemma {:induction false} InsertStable(sorted: seq<Item>, it: Item, t: int)
    ensures AtTime(Insert(sorted, it), t) == AtTime(sorted, t) + if Time(it) == t then [it] else []
  {
    hide AtTime, Time;
    if sorted == [] || Time(sorted[|sorted| - 1]) <= Time(it) {
      AtTimeSnoc(sorted, it, t);
    } else {
      var front, last := sorted[..|sorted| - 1], sorted[|sorted| - 1];
      InsertStable(front, it, t);
      assert sorted == front + [last];
      AtTimeSnoc(Insert(front, it), last, t);
      AtTimeSnoc(front, last, t);
    }
  }

  lemma NothingSorted()
    ensures Ordered([]) && forall t :: AtTime([], t) == []
  {
  }

  /** The sort orders by time, loses nothing, and keeps the list order within one instant. */
  lemma {:induction false} SortStable(items: seq<Item>)
    ensures Ordered(SortByTime(items)) && multiset(SortByTime(items)) == multiset(items)
    ensures forall t :: AtTime(SortByTime(items), t) == AtTime(items, t)
  {
    hide AtTime, Insert, Ordered;
    if items == [] {
      NothingSorted();
    } else {
      var front, it := items[..|items| - 1], items[|items| - 1];
      SortStable(front);
      InsertOrders(SortByTime(front), it);
      InsertHas(SortByTime(front), it);
      assert items == front + [it];
      forall t
        ensures AtTime(SortByTime(items), t) == AtTime(items, t)
      {
        InsertStable(SortByTime(front), it, t);
        AtTimeSnoc(front, it, t);
      }
    }
  }

  lemma {:induction false} BelowHas(items: seq<Item>, root: string, p: string, it: Item)
    ensures it in Below(items, root, p) <==> it in items && !IsRoot(it, root) && Parent(it, root) == p
  {
    if items != [] {
      BelowHas(items[..|items| - 1], root, p, it);
      assert items == items[..|items| - 1] + [items[|items| - 1]];
    }
  }

  /** The children map: every parent that has children, with its children sorted. */
  ghost predicate Groups(m: Children, items: seq<Item>, root: string) {
    && (forall p :: p in m <==> Below(items, root, p) != [])
    && forall p :: p in m ==> m[p] == SortByTime(Below(items, root, p))
  }

  /** Every item but the root is in exactly one bucket, the one of its parent, as often as in the list;
      and every bucket is in order of time, items of one instant in list order. */
  lemma BucketsPartition(m: Children, items: seq<Item>, root: string, it: Item)
    requires Groups(m, items, root)
    ensures it in items && !IsRoot(it, root) <==> Parent(it, root) in m && it in m[Parent(it, root)]
    ensures forall p :: p in m && it in m[p] ==> p == Parent(it, root)
    ensures forall p :: p in m ==> Ordered(m[p]) && multiset(m[p]) == multiset(Below(items, root, p))
    ensures forall p, t :: p in m ==> AtTime(m[p], t) == AtTime(Below(items, root, p), t)
  {
    forall p | p in m
      ensures Ordered(m[p]) && multiset(m[p]) == multiset(Below(items, root, p))
      ensures forall t :: AtTime(m[p], t) == AtTime(Below(items, root, p), t)
      ensures it in m[p] ==> p == Parent(it, root)
    {
      SortStable(Below(items, root, p));
      BelowHas(items, root, p, it);
      assert it in m[p] <==> it in multiset(m[p]);
    }
    var p := Parent(it, root);
    BelowHas(items, root, p, it);
    if p in m {
      SortStable(Below(items, root, p));
      assert it in m[p] <==> it in multiset(m[p]);
      assert it in Below(items, root, p) <==> it in multiset(Below(items, root, p));
    }
  }

  method BuildChildrenMap(items: seq<Item>, root: string) returns (m: Children)
    ensures Groups(m, items, root)
  {
    m := map[];
    for k := 0 to |items|
      invariant Collected(m, items[..k], root)
    {
      var it := items[k];
      CollectOne(m, items, k, root);
      if it.messageId == root && it.upper == "" {
        continue;
      }
      var parent := if it.upper != "" then it.upper else root;
      m := m[parent := (if parent in m then m[parent] else []) + [it]];
    }
    assert items[..|items|] == items;
    m := SortBuckets(m, items, root);
  }

  /** The map before sorting. */
  ghost predicate Collected(m: Children, items: seq<Item>, root: string) {
    && (forall p :: p in m <==> Below(items, root, p) != [])
    && forall p :: p in m ==> m[p] == Below(items, root, p)
  }

  lemma CollectOne(m: Children, items: seq<Item>, k: nat, root: string)
    requires k < |items| && Collected(m, items[..k], root)
    ensures var it := items[k];
      var parent := Parent(it, root);
      Collected(if IsRoot(it, root) then m else m[parent := (if parent in m then m[parent] else []) + [it]], items[..k + 1], root)
  {
    hide Below, IsRoot, Parent;
    forall p
      ensures Below(items[..k + 1], root, p) ==
        Below(items[..k], root, p) + if !IsRoot(items[k], root) && Parent(items[k], root) == p then [items[k]] else []
    {
      BelowNext(items, k, root, p);
    }
  }

  lemma BelowNext(items: seq<Item>, k: nat, root: string, p: string)
    requires k < |items|
    ensures Below(items[..k + 1], root, p) ==
      Below(items[..k], root, p) + if !IsRoot(items[k], root) && Parent(items[k], root) == p then [items[k]] else []
  {
    assert items[..k + 1][..k] == items[..k];
  }

  method SortBuckets(m0: Children, items: seq<Item>, root: string) returns (m: Children)
    requires Collected(m0, items, root)
    ensures Groups(m, items, root)
  {
    hide Below, SortByTime;
    m := m0;
    var todo := m.Keys;
    while todo != {}
      invariant todo <= m.Keys && m.Keys == m0.Keys
      invariant forall p :: p in m ==> m[p] == if p in todo then m0[p] else SortByTime(m0[p])
      decreases |todo|
    {
      var p :| p in todo;
      m := m[p := SortByTime(m[p])];
      todo := todo - {p};
    }
  }

  // ---- materializing -------------------------------------------------------------------------------

  datatype Limits = Limits(maxDepth: int, maxItems: nat)

  /** What an item shows: a nested forward, or its own content. */
  datatype Content = Nested(nodes: seq<Node>, truncated: bool, tooDeep: bool) | Plain

  datatype Node = Node(item: Item, content: Content)

  function Kids(m: Children, p: string): seq<Item> {
    if p in m then m[p] else []
  }

  function Shown(l: Limits, m: Children, p: string): seq<Item> {
    if |Kids(m, p)| > l.maxItems then Kids(m, p)[..l.maxItems] else Kids(m, p)
  }

  predicate Descends(it: Item) {
    it.msgType == "merge_forward" && it.messageId != ""
  }

  /** How many levels may still be opened at `depth`. */
  function Levels(l: Limits, depth: int): nat {
    if depth > l.maxDepth then 0 else l.maxDepth - depth + 1
  }

  function Materialized(l: Limits, m: Children, p: string, depth: int): Content
    decreases Levels(l, depth), 1, 0
  {
    if depth > l.maxDepth then Nested([], false, true)
    else Nested(Nodes(l, m, Shown(l, m, p), depth), |Kids(m, p)| > l.maxItems, false)
  }

  function Nodes(l: Limits, m: Children, items: seq<Item>, depth: int): (r: seq<Node>)
    requires depth <= l.maxDepth
    ensures |r| == |items|
    decreases Levels(l, depth), 0, |items|
  {
    if items == [] then []
    else
      var it := items[|items| - 1];
      Nodes(l, m, items[..|items| - 1], depth)
      + [Node(it, if Descends(it) then Materialized(l, m, it.messageId, depth + 1) else Plain)]
  }

  method Materialize(l: Limits, m: Children, p: string, depth: int) returns (c: Content)
    ensures c == Materialized(l, m, p, depth)
    decreases Levels(l, depth)
  {
    if depth > l.maxDepth {
      return Nested([], false, true);
    }
    var children := Kids(m, p);
    var truncated := false;
    if |children| > l.maxItems {
      children := children[..l.maxItems];
      truncated := true;
    }
    var nodes := [];
    for k := 0 to |children|
      invariant nodes == Nodes(l, m, children[..k], depth)
    {
      var it := children[k];
      assert children[..k + 1][..k] == children[..k];
      var content := Plain;
      if it.msgType == "merge_forward" && it.messageId != "" {
        content := Materialize(l, m, it.messageId, depth + 1);
      }
      nodes := nodes + [Node(it, content)];
    }
    assert children[..|children|] == children;
    c := Nested(nodes, truncated, false);
  }

  // ---- the tree against the map --------------------------------------------------------------------

  /** The node reached by a path of positions. */
  function NodeAt(c: Content, path: seq<nat>): Option<Item>
    decreases |path|
  {
    if path == [] || c.Plain? || path[0] >= |c.nodes| then None
    else if |path| == 1 then Some(c.nodes[path[0]].item)
    else NodeAt(c.nodes[path[0]].content, path[1..])
  }

  /** The item reached by following the same path through the map itself, within the limits. */
  function Walk(l: Limits, m: Children, p: string, depth: int, path: seq<nat>): Option<Item>
    decreases |path|
  {
    if path == [] || depth > l.maxDepth || path[0] >= |Kids(m, p)| || path[0] >= l.maxItems then None
    else
      var it := Kids(m, p)[path[0]];
      if |path| == 1 then Some(it)
      else if Descends(it) then Walk(l, m, it.messageId, depth + 1, path[1..])
      else None
  }

  lemma {:induction false} NodesAre(l: Limits, m: Children, items: seq<Item>, depth: int, k: nat)
    requires depth <= l.maxDepth && k < |items|
    ensures Nodes(l, m, items, depth)[k] ==
      Node(items[k], if Descends(items[k]) then Materialized(l, m, items[k].messageId, depth + 1) else Plain)
  {
    if k < |items| - 1 {
      NodesAre(l, m, items[..|items| - 1], depth, k);
    }
  }

  /** The tree shows exactly what the map says: a node stands at a path if and only if the map leads
      there within the limits, and it is the same item. Cycles of the map are cut by the depth limit. */
  lemma {:induction false} TreeFollowsMap(l: Limits, m: Children, p: string, depth: int, path: seq<nat>)
    ensures NodeAt(Materialized(l, m, p, depth), path) == Walk(l, m, p, depth, path)
    decreases |path|
  {
    if path != [] && depth <= l.maxDepth && path[0] < |Shown(l, m, p)| {
      NodesAre(l, m, Shown(l, m, p), depth, path[0]);
      var it := Shown(l, m, p)[path[0]];
      if |path| > 1 && Descends(it) {
        TreeFollowsMap(l, m, it.messageId, depth + 1, path[1..]);
      }
    }
  }

  // ---- the tree against the flat list ----------------------------------------------------------------

  /** The items lead from `p` downwards: each is listed, is not the root itself, and names its parent (the
      root if it names none); all but the last are nested forwards. */
  ghost predicate Chain(items: seq<Item>, root: string, p: string, ch: seq<Item>) {
    ch != []
    && (forall i :: 0 <= i < |ch| ==> ch[i] in items && !(ch[i].messageId == root && ch[i].upper == ""))
    && (if ch[0].upper != "" then ch[0].upper else root) == p
    && forall i :: 0 <= i < |ch| - 1 ==> Under(root, ch[i], ch[i + 1])
  }

  /** A nested forward, and an item that names it as its parent. */
  predicate Under(root: string, above: Item, it: Item) {
    above.msgType == "merge_forward" && above.messageId != "" && (if it.upper != "" then it.upper else root) == above.messageId
  }

  /** The items stand below each other along a path of the tree. */
  ghost predicate StandsAt(c: Content, path: seq<nat>, ch: seq<Item>) {
    |path| == |ch| && forall i :: 0 <= i < |ch| ==> NodeAt(c, path[..i + 1]) == Some(ch[i])
  }

  lemma ChainTail(items: seq<Item>, root: string, p: string, ch: seq<Item>)
    requires Chain(items, root, p, ch) && |ch| > 1
    ensures Chain(items, root, ch[0].messageId, ch[1..]) && Descends(ch[0])
  {
    assert Under(root, ch[0], ch[0 + 1]);
    assert forall i :: 0 <= i < |ch| - 1 ==> ch[1..][i] == ch[i + 1];
  }

  lemma ChainCons(items: seq<Item>, root: string, p: string, it: Item, rest: seq<Item>)
    requires it in items && !IsRoot(it, root) && Parent(it, root) == p && Descends(it) && Chain(items, root, it.messageId, rest)
    ensures Chain(items, root, p, [it] + rest)
  {
    var ch := [it] + rest;
    forall i | 0 <= i < |ch| - 1
      ensures Under(root, ch[i], ch[i + 1])
    {
      assert i > 0 ==> ch[i] == rest[i - 1] && ch[i + 1] == rest[i - 1 + 1];
    }
  }

  lemma KidsAre(m: Children, items: seq<Item>, root: string, p: string, it: Item)
    requires Groups(m, items, root)
    ensures it in Kids(m, p) <==> it in items && !IsRoot(it, root) && Parent(it, root) == p
  {
    hide Groups, IsRoot, Parent;
    BucketsPartition(m, items, root, it);
  }

  lemma NodeBelow(l: Limits, m: Children, p: string, depth: int, path: seq<nat>)
    requires depth <= l.maxDepth && path != [] && path[0] < |Shown(l, m, p)|
    ensures |path| == 1 ==> NodeAt(Materialized(l, m, p, depth), path) == Some(Shown(l, m, p)[path[0]])
    ensures |path| > 1 && Descends(Shown(l, m, p)[path[0]]) ==>
      NodeAt(Materialized(l, m, p, depth), path) == NodeAt(Materialized(l, m, Shown(l, m, p)[path[0]].messageId, depth + 1), path[1..])
  {
    NodesAre(l, m, Shown(l, m, p), depth, path[0]);
  }

  /** Every chain that the limits leave room for stands in the tree. */
  lemma {:induction false} ChainStands(l: Limits, m: Children, items: seq<Item>, root: string, p: string, depth: int, ch: seq<Item>)
    returns (path: seq<nat>)
    requires Groups(m, items, root) && Chain(items, root, p, ch) && |ch| <= l.maxDepth - depth + 1
    requires forall q :: q in m ==> |m[q]| <= l.maxItems
    ensures StandsAt(Materialized(l, m, p, depth), path, ch)
    decreases |ch|
  {
    hide Groups, Materialized, Descends;
    KidsAre(m, items, root, p, ch[0]);
    assert Shown(l, m, p) == Kids(m, p);
    var k :| 0 <= k < |Kids(m, p)| && Kids(m, p)[k] == ch[0];
    if |ch| == 1 {
      path := [k];
      assert path[..1] == path;
      NodeBelow(l, m, p, depth, path);
    } else {
      ChainTail(items, root, p, ch);
      var rest := ChainStands(l, m, items, root, ch[0].messageId, depth + 1, ch[1..]);
      path := [k] + rest;
      forall i | 0 <= i < |ch|
        ensures NodeAt(Materialized(l, m, p, depth), path[..i + 1]) == Some(ch[i])
      {
        NodeBelow(l, m, p, depth, path[..i + 1]);
        if i > 0 {
          assert path[..i + 1][1..] == rest[..i];
        }
      }
    }
  }

  /** And every node of the tree stands at the end of such a chain. */
  lemma {:induction false} NodeIsChain(l: Limits, m: Children, items: seq<Item>, root: string, p: string, depth: int, path: seq<nat>)
    returns (ch: seq<Item>)
    requires Groups(m, items, root) && NodeAt(Materialized(l, m, p, depth), path).Some?
    ensures Chain(items, root, p, ch) && |ch| == |path| && Some(ch[|ch| - 1]) == NodeAt(Materialized(l, m, p, depth), path)
    ensures |path| <= l.maxDepth - depth + 1
    decreases |path|
  {
    hide Groups;
    TreeFollowsMap(l, m, p, depth, path);
    var it := Kids(m, p)[path[0]];
    KidsAre(m, items, root, p, it);
    if |path| == 1 {
      ch := [it];
    } else {
      TreeFollowsMap(l, m, it.messageId, depth + 1, path[1..]);
      var rest := NodeIsChain(l, m, items, root, it.messageId, depth + 1, path[1..]);
      ChainCons(items, root, p, it, rest);
      ch := [it] + rest;
    }
  }

  /** The node at position `i` below the node at `path`. */
  function KidAt(c: Content, path: seq<nat>, i: nat): Option<Item> {
    NodeAt(c, path + [i])
  }

  /** Not later; an item without a time counts as time 0. */
  predicate Earlier(a: Item, b: Item) {
    (if a.createTime.Some? then a.createTime.value else 0) <= if b.createTime.Some? then b.createTime.value else 0
  }

  /** Siblings stand in order of time. */
  lemma {:induction false} SiblingsInOrder(l: Limits, m: Children, items: seq<Item>, root: string, p: string, depth: int, path: seq<nat>, i: nat, j: nat)
    requires Groups(m, items, root) && i < j
    requires var c := Materialized(l, m, p, depth); KidAt(c, path, i).Some? && KidAt(c, path, j).Some?
    ensures var c := Materialized(l, m, p, depth); Earlier(KidAt(c, path, i).value, KidAt(c, path, j).value)
    decreases |path|
  {
    hide Groups, Materialized;
    TreeFollowsMap(l, m, p, depth, path + [i]);
    TreeFollowsMap(l, m, p, depth, path + [j]);
    if path == [] {
      KidsOrdered(m, items, root, p);
    } else {
      var it := Kids(m, p)[path[0]];
      assert (path + [i])[1..] == path[1..] + [i] && (path + [j])[1..] == path[1..] + [j];
      TreeFollowsMap(l, m, it.messageId, depth + 1, path[1..] + [i]);
      TreeFollowsMap(l, m, it.messageId, depth + 1, path[1..] + [j]);
      SiblingsInOrder(l, m, items, root, it.messageId, depth + 1, path[1..], i, j);
    }
  }

  lemma KidsOrdered(m: Children, items: seq<Item>, root: string, p: string)
    requires Groups(m, items, root)
    ensures Ordered(Kids(m, p))
  {
    if p in m {
      SortStable(Below(items, root, p));
    }
  }

  /** What a level shows besides its items: a level beyond the depth limit says so, a truncated one says so,
      and exactly the nested forwards are opened. */
  lemma LevelIs(l: Limits, m: Children, p: string, depth: int)
    ensures var c := Materialized(l, m, p, depth);
      && c.Nested? && (c.tooDeep <==> depth > l.maxDepth) && (c.tooDeep ==> c.nodes == [] && !c.truncated)
      && (!c.tooDeep ==>
            && (c.truncated <==> p in m && |m[p]| > l.maxItems)
            && |c.nodes| == (if p !in m then 0 else if |m[p]| > l.maxItems then l.maxItems else |m[p]|)
            && forall k :: 0 <= k < |c.nodes| ==>
                 && c.nodes[k].item == m[p][k]
                 && if c.nodes[k].item.msgType == "merge_forward" && c.nodes[k].item.messageId != ""
                    then c.nodes[k].content == Materialized(l, m, c.nodes[k].item.messageId, depth + 1)
                    else c.nodes[k].content == Plain)
  {
    if depth <= l.maxDepth {
      var shown := Shown(l, m, p);
      forall k | 0 <= k < |shown|
        ensures Nodes(l, m, shown, depth)[k] ==
          Node(shown[k], if Descends(shown[k]) then Materialized(l, m, shown[k].messageId, depth + 1) else Plain)
      {
        NodesAre(l, m, shown, depth, k);
      }
    }
  }

  // ---- size ----------------------------------------------------------------------------------------

  function Size(c: Content): nat
    decreases c
  {
    if c.Plain? then 0 else SizeAll(c.nodes)
  }

  function SizeAll(nodes: seq<Node>): nat
    decreases nodes
  {
    if nodes == [] then 0
    else
      var last := nodes[|nodes| - 1];
      assert last in nodes && last.content < last;
      SizeAll(nodes[..|nodes| - 1]) + 1 + Size(last.content)
  }

  /** Every node counts once, with what is below it, and the nodes side by side add up. */
  lemma {:induction false} SizeAdds(a: seq<Node>, b: seq<Node>, it: Item, c: Content, truncated: bool, tooDeep: bool)
    ensures SizeAll(a + b) == SizeAll(a) + SizeAll(b) && SizeAll([]) == 0
    ensures SizeAll([Node(it, c)]) == 1 + Size(c)
    ensures Size(Plain) == 0 && Size(Nested(a, truncated, tooDeep)) == SizeAll(a)
    decreases |b|
  {
    assert [Node(it, c)][..0] == [];
    if b == [] {
      assert a + b == a;
    } else {
      assert (a + b)[..|a + b| - 1] == a + b[..|b| - 1];
      SizeAdds(a, b[..|b| - 1], it, c, truncated, tooDeep);
    }
  }

  function Power(b: nat, e: nat): nat {
    if e == 0 then 1 else b * Power(b, e - 1)
  }

  /** `b + b^2 + ... + b^n`. */
  function PowerSum(b: nat, n: nat): nat {
    if n == 0 then 0 else PowerSum(b, n - 1) + Power(b, n)
  }

  lemma {:induction false} PowerSumStep(b: nat, n: nat)
    ensures PowerSum(b, n + 1) == b * (1 + PowerSum(b, n))
  {
    if n == 0 {
      assert PowerSum(b, 1) == PowerSum(b, 0) + Power(b, 1);
    } else {
      PowerSumStep(b, n - 1);
      Distribute(b, 1 + PowerSum(b, n - 1), Power(b, n));
    }
  }

  lemma Distribute(b: nat, x: nat, y: nat)
    ensures b * (x + y) == b * x + b * y
  {
  }

  /** For any map, cyclic or not, the tree has at most `b + ... + b^n` nodes, where `b` bounds the items
      of a level and `n` is the number of levels. */
  lemma {:induction false} TreeIsBounded(l: Limits, m: Children, p: string, depth: int)
    ensures Size(Materialized(l, m, p, depth)) <= PowerSum(l.maxItems, Levels(l, depth))
    decreases Levels(l, depth), 1, 0
  {
    if depth <= l.maxDepth {
      var items, below := Shown(l, m, p), PowerSum(l.maxItems, Levels(l, depth + 1));
      NodesBounded(l, m, items, depth);
      PowerSumStep(l.maxItems, Levels(l, depth + 1));
      MonotoneProduct(|items|, l.maxItems, 1 + below);
    }
  }

  lemma MonotoneProduct(a: nat, b: nat, c: nat)
    requires a <= b
    ensures a * c <= b * c
  {
  }

  lemma {:induction false} NodesBounded(l: Limits, m: Children, items: seq<Item>, depth: int)
    requires depth <= l.maxDepth
    ensures SizeAll(Nodes(l, m, items, depth)) <= |items| * (1 + PowerSum(l.maxItems, Levels(l, depth + 1)))
    decreases Levels(l, depth), 0, |items|
  {
    if items != [] {
      hide PowerSum;
      var front, it := items[..|items| - 1], items[|items| - 1];
      var below := 1 + PowerSum(l.maxItems, Levels(l, depth + 1));
      NodesBounded(l, m, front, depth);
      if Descends(it) {
        TreeIsBounded(l, m, it.messageId, depth + 1);
      }
      var nodes := Nodes(l, m, items, depth);
      assert nodes[..|nodes| - 1] == Nodes(l, m, front, depth);
      OneMore(|front|, below);
    }
  }

  lemma OneMore(n: nat, b: nat)
    ensures (n + 1) * b == n * b + b
  {
  }

  // ---- expanding -----------------------------------------------------------------------------------

  /** What the single fetch brought. */
  datatype Fetched = Failed | NothingSent | Sent(items: seq<Item>)

  datatype Expansion = Error(reason: string) | Expanded(content: Content)

  lemma BucketsFit(m: Children, items: seq<Item>, root: string)
    requires Groups(m, items, root)
    ensures forall q :: q in m ==> |m[q]| <= |items|
  {
    forall q | q in m
      ensures |m[q]| <= |items|
    {
      SortStable(Below(items, root, q));
      assert |m[q]| == |multiset(m[q])| == |Below(items, root, q)|;
      BelowFits(items, root, q);
    }
  }

  lemma {:induction false} BelowFits(items: seq<Item>, root: string, p: string)
    ensures |Below(items, root, p)| <= |items|
  {
    if items != [] {
      BelowFits(items[..|items| - 1], root, p);
    }
  }

  lemma TreeIsItems(l: Limits, m: Children, items: seq<Item>, root: string, depth: int)
    requires Groups(m, items, root)
    ensures var c := Materialized(l, m, root, depth);
      && (forall path :: NodeAt(c, path).Some? ==> exists ch :: Chain(items, root, root, ch) && |ch| == |path| && NodeAt(c, path) == Some(ch[|ch| - 1]))
      && (forall path, i, j :: i < j && KidAt(c, path, i).Some? && KidAt(c, path, j).Some? ==>
            Earlier(KidAt(c, path, i).value, KidAt(c, path, j).value))
      && (|items| <= l.maxItems ==>
            forall ch :: Chain(items, root, root, ch) && |ch| <= l.maxDepth - depth + 1 ==> exists path :: StandsAt(c, path, ch))
  {
    hide Groups, StandsAt, NodeAt, Materialized;
    var c := Materialized(l, m, root, depth);
    BucketsFit(m, items, root);
    forall path | NodeAt(c, path).Some?
      ensures exists ch :: Chain(items, root, root, ch) && |ch| == |path| && NodeAt(c, path) == Some(ch[|ch| - 1])
    {
      var ch := NodeIsChain(l, m, items, root, root, depth, path);
    }
    forall path, i, j | i < j && KidAt(c, path, i).Some? && KidAt(c, path, j).Some?
      ensures Earlier(KidAt(c, path, i).value, KidAt(c, path, j).value)
    {
      SiblingsInOrder(l, m, items, root, root, depth, path, i, j);
    }
    forall ch | |items| <= l.maxItems && Chain(items, root, root, ch) && |ch| <= l.maxDepth - depth + 1
      ensures exists path :: StandsAt(c, path, ch)
    {
      var path := ChainStands(l, m, items, root, root, depth, ch);
    }
  }

  /** `expand`: one fetch, then everything is rebuilt locally. */
  method Expand(l: Limits, root: string, depth: int, fetched: Fetched) returns (e: Expansion)
    ensures depth > l.maxDepth ==> e == Error("max_depth_exceeded")
    ensures depth <= l.maxDepth ==>
      match fetched
      case Failed => e == Error("fetch_failed")
      case NothingSent => e == Error("empty_payload")
      case Sent(items) => exists m ::
        Groups(m, items, root) && e == Expanded(Materialized(l, m, root, depth))
        && Size(e.content) <= PowerSum(l.maxItems, Levels(l, depth))
    // Every node stands at the end of a chain of items from the root, siblings in order of time; and where
    // nothing is cut off, every chain within the depth limit stands in the tree.
    ensures depth <= l.maxDepth && fetched.Sent? ==>
      && (forall path :: NodeAt(e.content, path).Some? ==> exists ch :: Chain(fetched.items, root, root, ch) && |ch| == |path| && NodeAt(e.content, path) == Some(ch[|ch| - 1]))
      && (forall path, i, j :: i < j && KidAt(e.content, path, i).Some? && KidAt(e.content, path, j).Some? ==>
            Earlier(KidAt(e.content, path, i).value, KidAt(e.content, path, j).value))
      && (|fetched.items| <= l.maxItems ==>
            forall ch :: Chain(fetched.items, root, root, ch) && |ch| <= l.maxDepth - depth + 1 ==> exists path :: StandsAt(e.content, path, ch))
  {
    if depth > l.maxDepth {
      return Error("max_depth_exceeded");
    }
    match fetched {
      case Failed => return Error("fetch_failed");
      case NothingSent => return Error("empty_payload");
      case Sent(items) =>
        var m := BuildChildrenMap(items, root);
        TreeIsBounded(l, m, root, depth);
        var c := Materialize(l, m, root, depth);
        TreeIsItems(l, m, items, root, depth);
        return Expanded(c);
    }
  }
}
