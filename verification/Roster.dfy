/** The roster of a chat, and resolving a display name to an open_id.

    Rosters are values here: the source's roster objects are reachable only through the cache. Each
    public call reads the clock once. */
module Roster {
  import opened Wrappers
  import opened OrderedDict

  datatype Member = Member(id: string, name: string, isBot: bool)

  datatype Snapshot = Snapshot(members: seq<Member>, idType: string, complete: bool, fetchedAt: real)

  /** A short-lived mention observation. */
  datatype Seen = Seen(name: string, at: real, isBot: bool)

  datatype Roster = Roster(apiUsers: map<string, Snapshot>, apiBots: Option<Snapshot>, mentions: ODict<Seen>, updatedAt: real)

  // ---- the index -----------------------------------------------------------------------------------

  datatype Target = Only(id: string) | Ambiguous

  datatype Index = Index(byOpenId: map<string, string>, byName: map<string, Target>, apiIds: set<string>)

  /** One registration of an id under a name. */
  datatype Reg = Reg(id: string, name: string, isApi: bool)

  /** The inner function `register`. */
  function Register(x: Index, r: Reg): Index {
    if r.id == "" || r.name == "" then x
    else
      var renamed :=
        if r.isApi || r.id !in x.byOpenId then
          var prev := r.id in x.byOpenId && x.byOpenId[r.id] != r.name;
          var byName := if prev && x.byOpenId[r.id] in x.byName && x.byName[x.byOpenId[r.id]] == Only(r.id)
            then x.byName - {x.byOpenId[r.id]} else x.byName;
          Index(x.byOpenId[r.id := r.name], byName, if r.isApi then x.apiIds + {r.id} else x.apiIds)
        else x;
      if r.name !in renamed.byName then renamed.(byName := renamed.byName[r.name := Only(r.id)])
      else if renamed.byName[r.name] != Only(r.id) then renamed.(byName := renamed.byName[r.name := Ambiguous])
      else renamed
  }

  function IndexOf(regs: seq<Reg>): Index {
    if regs == [] then Index(map[], map[], {})
    else Register(IndexOf(regs[..|regs| - 1]), regs[|regs| - 1])
  }

  /** The name an id currently has: its last registration. */
  function NameOf(regs: seq<Reg>, id: string): Option<string> {
    if regs == [] then None
    else if regs[|regs| - 1].id == id then Some(regs[|regs| - 1].name)
    else NameOf(regs[..|regs| - 1], id)
  }

  /** Registrations carry an id and a name; a mention stands only for an id that nothing before it
      registered. */
  ghost predicate Proper(regs: seq<Reg>) {
    forall j :: 0 <= j < |regs| ==>
      && regs[j].id != "" && regs[j].name != ""
      && (!regs[j].isApi ==> forall i :: 0 <= i < j ==> regs[i].id != regs[j].id)
  }

  /** Some API snapshot registered the id. */
  predicate FromApi(regs: seq<Reg>, id: string) {
    regs != [] && ((regs[|regs| - 1].isApi && regs[|regs| - 1].id == id) || FromApi(regs[..|regs| - 1], id))
  }

  /** The two directions of the index agree: every id is behind its name, alone or not, and an id that
      stands alone behind a name carries it. */
  ghost predicate Linked(x: Index) {
    && (forall id :: id in x.byOpenId ==>
         x.byOpenId[id] in x.byName && (x.byName[x.byOpenId[id]] == Only(id) || x.byName[x.byOpenId[id]] == Ambiguous))
    && (forall n :: n in x.byName && x.byName[n].Only? ==>
         x.byName[n].id in x.byOpenId && x.byOpenId[x.byName[n].id] == n)
  }

  ghost predicate Named(regs: seq<Reg>, x: Index) {
    && (forall id :: id in x.byOpenId <==> NameOf(regs, id).Some?)
    && (forall id :: id in x.byOpenId ==> NameOf(regs, id) == Some(x.byOpenId[id]))
    && (forall id :: id in x.apiIds <==> FromApi(regs, id))
  }

  ghost predicate Disputed(regs: seq<Reg>, x: Index) {
    forall n :: n in x.byName && x.byName[n].Ambiguous? <==> Contested(regs, n)
  }

  /** What the index says is right. */
  ghost predicate Faithful(regs: seq<Reg>, x: Index) {
    Named(regs, x) && Linked(x) && Disputed(regs, x)
  }

  /** At some registration under the name another id carried it. */
  ghost predicate Contested(regs: seq<Reg>, name: string) {
    exists j :: 0 <= j < |regs| && regs[j].name == name && Taken(regs[..j], name, regs[j].id)
  }

  /** Somebody else carries the name. */
  ghost predicate Taken(regs: seq<Reg>, name: string, id: string) {
    exists other :: other != id && NameOf(regs, other) == Some(name)
  }

  lemma ContestedNext(front: seq<Reg>, r: Reg, name: string)
    ensures Contested(front + [r], name) <==> Contested(front, name) || (r.name == name && Taken(front, name, r.id))
  {
    var regs := front + [r];
    assert regs[..|front|] == front;
    assert forall j :: 0 <= j < |front| ==> regs[j] == front[j] && regs[..j] == front[..j];
    if Contested(front, name) {
      var j :| 0 <= j < |front| && front[j].name == name && Taken(front[..j], name, front[j].id);
      assert regs[j].name == name && Taken(regs[..j], name, regs[j].id);
    }
    if r.name == name && Taken(front, name, r.id) {
      assert Taken(regs[..|front|], name, regs[|front|].id);
    }
  }

  lemma {:induction false} IndexFaithful(regs: seq<Reg>)
    requires Proper(regs)
    ensures Faithful(regs, IndexOf(regs))
  {
    hide Register, Named, Linked, Disputed;
    if regs != [] {
      var front, r := regs[..|regs| - 1], regs[|regs| - 1];
      IndexFaithful(front);
      NamedOnlyIfRegistered(front, r.id);
      assert regs == front + [r];
      assert forall i :: 0 <= i < |front| ==> front[i] == regs[i];
      RegisterNamed(front, IndexOf(front), r);
      RegisterLinked(IndexOf(front), r);
      RegisterDisputed(front, IndexOf(front), r);
    } else {
      NothingRegistered();
    }
  }

  lemma NothingRegistered()
    ensures Faithful([], IndexOf([]))
  {
  }

  lemma RegisterNamed(front: seq<Reg>, x: Index, r: Reg)
    requires Named(front, x) && r.id != "" && r.name != "" && (r.isApi || NameOf(front, r.id).None?)
    ensures Named(front + [r], Register(x, r))
    ensures r.isApi || r.id !in x.byOpenId
  {
    assert (front + [r])[..|front|] == front;
  }

  lemma RegisterLinked(x: Index, r: Reg)
    requires Linked(x) && r.id != "" && r.name != "" && (r.isApi || r.id !in x.byOpenId)
    ensures Linked(Register(x, r))
  {
  }

  lemma {:induction false} NamedOnlyIfRegistered(regs: seq<Reg>, id: string)
    ensures NameOf(regs, id).Some? <==> exists i :: 0 <= i < |regs| && regs[i].id == id
    ensures NameOf(regs, id).Some? ==> exists i :: 0 <= i < |regs| && regs[i].id == id && regs[i].name == NameOf(regs, id).value
  {
    if regs != [] && regs[|regs| - 1].id != id {
      var front := regs[..|regs| - 1];
      NamedOnlyIfRegistered(front, id);
      if NameOf(front, id).Some? {
        var i :| 0 <= i < |front| && front[i].id == id && front[i].name == NameOf(front, id).value;
        assert regs[i] == front[i];
      } else {
        assert forall i :: 0 <= i < |front| ==> regs[i] == front[i];
      }
    }
  }

  /** A name becomes ambiguous exactly when an id claims it that another one carries, and stays so. */
  lemma RegisterDisputed(front: seq<Reg>, x: Index, r: Reg)
    requires Named(front, x) && Linked(x) && Disputed(front, x) && r.id != "" && r.name != ""
    requires r.isApi || r.id !in x.byOpenId
    ensures Disputed(front + [r], Register(x, r))
  {
    hide Contested;
    var y := Register(x, r);
    forall n
      ensures n in y.byName && y.byName[n].Ambiguous? <==> Contested(front + [r], n)
    {
      ContestedNext(front, r, n);
      if n == r.name {
        TakenIs(front, x, r);
      }
    }
  }

  lemma TakenIs(front: seq<Reg>, x: Index, r: Reg)
    requires Named(front, x) && Linked(x)
    ensures Taken(front, r.name, r.id) ==>
      r.name in x.byName && (x.byName[r.name].Ambiguous? || x.byName[r.name].id != r.id)
    ensures r.name in x.byName && x.byName[r.name].Only? && x.byName[r.name].id != r.id ==> Taken(front, r.name, r.id)
  {
    if Taken(front, r.name, r.id) {
      var other :| other != r.id && NameOf(front, other) == Some(r.name);
      assert other in x.byOpenId && x.byOpenId[other] == r.name;
    }
    if r.name in x.byName && x.byName[r.name].Only? && x.byName[r.name].id != r.id {
      var other := x.byName[r.name].id;
      assert NameOf(front, other) == Some(r.name);
    }
  }

  function Resolve(x: Index, name: string): Option<string> {
    if name in x.byName && x.byName[name].Only? then Some(x.byName[name].id) else None
  }

  /** Never the wrong person: a resolved id currently carries the name and no other id does. And a name
      resolves to the id that carries it if and only if no registration under it ever found another
      carrier. */
  lemma NeverTheWrongPerson(regs: seq<Reg>, name: string)
    requires Proper(regs)
    ensures var r := Resolve(IndexOf(regs), name);
      r.Some? ==> forall id :: NameOf(regs, id) == Some(name) <==> id == r.value
    ensures forall id :: Resolve(IndexOf(regs), name) == Some(id) <==>
      NameOf(regs, id) == Some(name) && !Contested(regs, name)
  {
    hide Register;
    IndexFaithful(regs);
  }

  // ---- what feeds the index ------------------------------------------------------------------------

  datatype Limits = Limits(ttl: real, mentionTtl: real, maxChats: nat, maxEntries: nat)

  /** Only a live, complete snapshot counts. */
  predicate Counts(s: Snapshot, l: Limits, now: real) {
    s.complete && now - s.fetchedAt <= l.ttl
  }

  function NamedRegs(members: seq<Member>): seq<Reg> {
    if members == [] then []
    else
      var m := members[|members| - 1];
      NamedRegs(members[..|members| - 1]) + if m.id != "" && m.name != "" then [Reg(m.id, m.name, true)] else []
  }

  /** The registrations of the `open_id` users and then of the bots. */
  function ApiRegs(r: Roster, l: Limits, now: real): seq<Reg> {
    (if "open_id" in r.apiUsers && Counts(r.apiUsers["open_id"], l, now) then NamedRegs(r.apiUsers["open_id"].members) else [])
    + if r.apiBots.Some? && Counts(r.apiBots.value, l, now) then NamedRegs(r.apiBots.value.members) else []
  }

  /** The live mentions among `keys`, in order, of ids the API does not name. */
  function MentionRegs(keys: seq<string>, vals: map<string, Seen>, apiIds: set<string>, l: Limits, now: real): seq<Reg> {
    if keys == [] then []
    else
      var k := keys[|keys| - 1];
      MentionRegs(keys[..|keys| - 1], vals, apiIds, l, now)
      + if k in vals && !(now - vals[k].at > l.mentionTtl) && k !in apiIds then [Reg(k, vals[k].name, false)] else []
  }

  function IdsOf(regs: seq<Reg>): set<string> {
    set r | r in regs :: r.id
  }

  function Regs(r: Roster, l: Limits, now: real): seq<Reg> {
    var api := ApiRegs(r, l, now);
    api + MentionRegs(r.mentions.keys, r.mentions.vals, IdsOf(api), l, now)
  }

  /** Mentions carry an id and a name. */
  ghost predicate Kept(r: Roster, l: Limits) {
    && Valid(r.mentions) && |r.mentions.keys| <= l.maxEntries
    && forall k :: k in r.mentions.vals ==> k != "" && r.mentions.vals[k].name != ""
  }

  lemma {:induction false} NamedRegsAre(members: seq<Member>)
    ensures forall r :: r in NamedRegs(members) <==> r.isApi && r.id != "" && r.name != "" && Listed(members, r.id, r.name)
  {
    if members != [] {
      var front := members[..|members| - 1];
      NamedRegsAre(front);
      forall id, name
        ensures Listed(members, id, name) <==> Listed(front, id, name) || (members[|front|].id == id && members[|front|].name == name)
      {
        if Listed(front, id, name) {
          var k :| 0 <= k < |front| && front[k].id == id && front[k].name == name;
          assert members[k] == front[k];
        }
        if Listed(members, id, name) {
          var k :| 0 <= k < |members| && members[k].id == id && members[k].name == name;
          assert k < |front| ==> front[k] == members[k];
        }
      }
    }
  }

  predicate Listed(members: seq<Member>, id: string, name: string) {
    exists k :: 0 <= k < |members| && members[k].id == id && members[k].name == name
  }

  lemma {:induction false} MentionRegsAre(keys: seq<string>, vals: map<string, Seen>, apiIds: set<string>, l: Limits, now: real)
    requires Distinct(keys)
    ensures var ms := MentionRegs(keys, vals, apiIds, l, now);
      && (forall r :: r in ms <==>
           !r.isApi && r.id in keys && r.id in vals && r.name == vals[r.id].name
           && !(now - vals[r.id].at > l.mentionTtl) && r.id !in apiIds)
      && forall i, j :: 0 <= i < j < |ms| ==> ms[i].id != ms[j].id
  {
    if keys != [] {
      var front, k := keys[..|keys| - 1], keys[|keys| - 1];
      MentionRegsAre(front, vals, apiIds, l, now);
      assert keys == front + [k];
      assert k !in front;
    }
  }

  lemma ApiRegsNamed(r: Roster, l: Limits, now: real)
    ensures forall g :: g in ApiRegs(r, l, now) ==> g.isApi && g.id != "" && g.name != ""
  {
    if "open_id" in r.apiUsers {
      NamedRegsAre(r.apiUsers["open_id"].members);
    }
    if r.apiBots.Some? {
      NamedRegsAre(r.apiBots.value.members);
    }
  }

  lemma ConcatProper(api: seq<Reg>, ms: seq<Reg>)
    requires forall g :: g in api ==> g.isApi && g.id != "" && g.name != ""
    requires forall g :: g in ms ==> g.id != "" && g.name != "" && g.id !in IdsOf(api)
    requires forall i, j :: 0 <= i < j < |ms| ==> ms[i].id != ms[j].id
    ensures Proper(api + ms)
  {
    var regs := api + ms;
    forall j | 0 <= j < |regs|
      ensures regs[j].id != "" && regs[j].name != ""
      ensures !regs[j].isApi ==> forall i :: 0 <= i < j ==> regs[i].id != regs[j].id
    {
      if j < |api| {
        assert regs[j] == api[j] && api[j] in api;
      } else {
        assert regs[j] == ms[j - |api|] && regs[j] in ms;
        forall i | 0 <= i < j
          ensures regs[i].id != regs[j].id
        {
          assert i < |api| ==> regs[i] == api[i] && api[i] in api;
          assert i >= |api| ==> regs[i] == ms[i - |api|];
        }
      }
    }
  }

  lemma RegsProper(r: Roster, l: Limits, now: real)
    requires Kept(r, l)
    ensures Proper(Regs(r, l, now))
    ensures forall g :: g in ApiRegs(r, l, now) ==> g.isApi && g.id != "" && g.name != ""
  {
    hide ApiRegs, MentionRegs, Proper, IdsOf, Distinct;
    var api := ApiRegs(r, l, now);
    ApiRegsNamed(r, l, now);
    MentionRegsAre(r.mentions.keys, r.mentions.vals, IdsOf(api), l, now);
    ConcatProper(api, MentionRegs(r.mentions.keys, r.mentions.vals, IdsOf(api), l, now));
  }

  /** A live, complete list of users (by open_id) or bots names the id so. */
  ghost predicate ListedLive(r: Roster, l: Limits, now: real, id: string, name: string) {
    && id != "" && name != ""
    && (|| ("open_id" in r.apiUsers && r.apiUsers["open_id"].complete && now - r.apiUsers["open_id"].fetchedAt <= l.ttl
            && exists m :: m in r.apiUsers["open_id"].members && m.id == id && m.name == name)
        || (r.apiBots.Some? && r.apiBots.value.complete && now - r.apiBots.value.fetchedAt <= l.ttl
            && exists m :: m in r.apiBots.value.members && m.id == id && m.name == name))
  }

  /** Where a name comes from: such a list, or a live mention of an id that no such list names. */
  ghost predicate Carries(r: Roster, l: Limits, now: real, id: string, name: string) {
    || ListedLive(r, l, now, id, name)
    || (id in r.mentions.vals && r.mentions.vals[id].name == name && now - r.mentions.vals[id].at <= l.mentionTtl
        && forall n :: !ListedLive(r, l, now, id, n))
  }

  lemma ListedIff(members: seq<Member>, id: string, name: string)
    ensures Listed(members, id, name) <==> exists m :: m in members && m.id == id && m.name == name
  {
  }

  lemma ApiRegsAre(r: Roster, l: Limits, now: real)
    ensures forall g :: g in ApiRegs(r, l, now) <==> g.isApi && ListedLive(r, l, now, g.id, g.name)
    ensures forall id :: id in IdsOf(ApiRegs(r, l, now)) <==> exists n :: ListedLive(r, l, now, id, n)
  {
    hide NamedRegs, Listed;
    var users := if "open_id" in r.apiUsers then r.apiUsers["open_id"].members else [];
    var bots := if r.apiBots.Some? then r.apiBots.value.members else [];
    NamedRegsAre(users);
    NamedRegsAre(bots);
    var api := ApiRegs(r, l, now);
    forall g: Reg
      ensures g in api <==> g.isApi && ListedLive(r, l, now, g.id, g.name)
    {
      ListedIff(users, g.id, g.name);
      ListedIff(bots, g.id, g.name);
    }
    forall id
      ensures id in IdsOf(api) <==> exists n :: ListedLive(r, l, now, id, n)
    {
      forall n | ListedLive(r, l, now, id, n)
        ensures id in IdsOf(api)
      {
        assert Reg(id, n, true) in api;
      }
    }
  }

  /** Registered under a name is who carries it. */
  lemma RegsAre(r: Roster, l: Limits, now: real)
    requires Kept(r, l)
    ensures forall g :: g in Regs(r, l, now) ==> Carries(r, l, now, g.id, g.name)
    ensures forall id, name :: Carries(r, l, now, id, name) ==> exists g :: g in Regs(r, l, now) && g.id == id && g.name == name
  {
    hide ApiRegs, MentionRegs, ListedLive, IdsOf, Distinct;
    var api := ApiRegs(r, l, now);
    ApiRegsAre(r, l, now);
    MentionRegsAre(r.mentions.keys, r.mentions.vals, IdsOf(api), l, now);
    forall id, name | Carries(r, l, now, id, name)
      ensures exists g :: g in Regs(r, l, now) && g.id == id && g.name == name
    {
      if ListedLive(r, l, now, id, name) {
        assert Reg(id, name, true) in api;
      } else {
        assert Reg(id, name, false) in MentionRegs(r.mentions.keys, r.mentions.vals, IdsOf(api), l, now);
      }
    }
  }

  lemma NamesAreBacked(r: Roster, l: Limits, now: real, id: string, name: string)
    requires Kept(r, l) && NameOf(Regs(r, l, now), id) == Some(name)
    ensures Carries(r, l, now, id, name)
  {
    hide Regs, Carries;
    var regs := Regs(r, l, now);
    NamedOnlyIfRegistered(regs, id);
    RegsAre(r, l, now);
    var i :| 0 <= i < |regs| && regs[i].id == id && regs[i].name == name;
    assert regs[i] in regs;
  }

  /** The id carries this name and no other. */
  ghost predicate OneName(r: Roster, l: Limits, now: real, id: string, name: string) {
    Carries(r, l, now, id, name) && forall n :: Carries(r, l, now, id, n) ==> n == name
  }

  /** And nobody else carries it. */
  ghost predicate Unmistakable(r: Roster, l: Limits, now: real, id: string, name: string) {
    OneName(r, l, now, id, name) && forall other :: Carries(r, l, now, other, name) ==> other == id
  }

  lemma OneNameIsName(r: Roster, l: Limits, now: real, id: string, name: string)
    requires Kept(r, l) && OneName(r, l, now, id, name)
    ensures NameOf(Regs(r, l, now), id) == Some(name)
  {
    hide Regs, Carries;
    var regs := Regs(r, l, now);
    RegsAre(r, l, now);
    NamedOnlyIfRegistered(regs, id);
    var g :| g in regs && g.id == id && g.name == name;
    var i :| 0 <= i < |regs| && regs[i] == g;
    NamesAreBacked(r, l, now, id, NameOf(regs, id).value);
  }

  /** Whoever carries a name unmistakably is resolved. */
  lemma CarrierResolves(r: Roster, l: Limits, now: real, id: string, name: string)
    requires Kept(r, l) && Unmistakable(r, l, now, id, name)
    ensures NameOf(Regs(r, l, now), id) == Some(name) && !Contested(Regs(r, l, now), name)
  {
    hide Regs, Carries, OneName, NameOf;
    OneNameIsName(r, l, now, id, name);
    var regs := Regs(r, l, now);
    RegsAre(r, l, now);
    if Contested(regs, name) {
      var j :| 0 <= j < |regs| && regs[j].name == name && Taken(regs[..j], name, regs[j].id);
      assert regs[j] in regs;
      var other :| other != regs[j].id && NameOf(regs[..j], other) == Some(name);
      NamedOnlyIfRegistered(regs[..j], other);
      assert false;
    }
  }

  // ---- refreshing ----------------------------------------------------------------------------------

  /** Mentions of one category that an authoritative snapshot does not contain are dropped. */
  function Reconciled(mentions: ODict<Seen>, ids: set<string>, wantBot: bool): ODict<Seen> {
    PopIf(mentions, mentions.keys, (k: string, s: Seen) => s.isBot == wantBot && k !in ids)
  }

  function MemberIds(members: seq<Member>): set<string> {
    set m | m in members :: m.id
  }

  function Observed(mentions: ODict<Seen>, members: seq<Member>, now: real): ODict<Seen> {
    if members == [] then mentions
    else
      var before, m := Observed(mentions, members[..|members| - 1], now), members[|members| - 1];
      if m.id == "" || m.name == "" then before else PutLast(before, m.id, Seen(m.name, now, m.isBot))
  }

  /** The roster after `set_members`. A truncated refresh never stores a complete snapshot. */
  function WithMembers(r: Roster, l: Limits, members: seq<Member>, fromApi: bool, idType: string, complete: bool, now: real): Roster {
    if fromApi then
      var stores := complete || idType !in r.apiUsers || !r.apiUsers[idType].complete;
      Roster(if stores then r.apiUsers[idType := Snapshot(members, idType, complete, now)] else r.apiUsers,
             r.apiBots,
             if complete && idType == "open_id" then Reconciled(r.mentions, MemberIds(members), false) else r.mentions,
             now)
    else
      r.(mentions := Evict(Observed(r.mentions, members, now), l.maxEntries), updatedAt := now)
  }

  /** The roster after `set_bots`. */
  function WithBots(r: Roster, bots: seq<Member>, complete: bool, now: real): Roster {
    r.(apiBots := Some(Snapshot(bots, "open_id", complete, now)),
       mentions := if complete then Reconciled(r.mentions, MemberIds(bots), true) else r.mentions,
       updatedAt := now)
  }

  lemma {:induction false} ObservedKept(mentions: ODict<Seen>, members: seq<Member>, now: real)
    requires Valid(mentions) && forall k :: k in mentions.vals ==> k != "" && mentions.vals[k].name != ""
    ensures var d := Observed(mentions, members, now);
      Valid(d) && forall k :: k in d.vals ==> k != "" && d.vals[k].name != ""
  {
    if members != [] {
      var front, m := members[..|members| - 1], members[|members| - 1];
      ObservedKept(mentions, front, now);
      PutLastValid(Observed(mentions, front, now), m.id, Seen(m.name, now, m.isBot));
    }
  }

  lemma WithMembersKept(r: Roster, l: Limits, members: seq<Member>, fromApi: bool, idType: string, complete: bool, now: real)
    requires Kept(r, l)
    ensures Kept(WithMembers(r, l, members, fromApi, idType, complete, now), l)
  {
    PopIfIs(r.mentions, r.mentions.keys, (k: string, s: Seen) => s.isBot == false && k !in MemberIds(members));
    ObservedKept(r.mentions, members, now);
    EvictValid(Observed(r.mentions, members, now), l.maxEntries);
  }

  lemma WithBotsKept(r: Roster, l: Limits, bots: seq<Member>, complete: bool, now: real)
    requires Kept(r, l)
    ensures Kept(WithBots(r, bots, complete, now), l)
  {
    PopIfIs(r.mentions, r.mentions.keys, (k: string, s: Seen) => s.isBot == true && k !in MemberIds(bots));
  }

  /** A complete refresh cannot be contradicted by old mentions: right after it, whoever the snapshot
      does not contain is known only as a bot. */
  lemma DepartedAreForgotten(r: Roster, l: Limits, members: seq<Member>, now: real, id: string)
    requires Kept(r, l) && id !in MemberIds(members)
    ensures var r' := WithMembers(r, l, members, true, "open_id", true, now);
      NameOf(Regs(r', l, now), id).Some? ==>
        || (id in r'.mentions.vals && r'.mentions.vals[id].isBot)
        || (r'.apiBots.Some? && r'.apiBots.value.complete && now - r'.apiBots.value.fetchedAt <= l.ttl && id in MemberIds(r'.apiBots.value.members))
  {
    var r' := WithMembers(r, l, members, true, "open_id", true, now);
    WithMembersKept(r, l, members, true, "open_id", true, now);
    PopIfIs(r.mentions, r.mentions.keys, (k: string, s: Seen) => s.isBot == false && k !in MemberIds(members));
    var name := NameOf(Regs(r', l, now), id);
    if name.Some? {
      NamesAreBacked(r', l, now, id, name.value);
    }
  }

  /** A complete list of users counts in full until its time is over, and no other list of users does. */
  lemma RefreshCounts(r: Roster, l: Limits, members: seq<Member>, now: real, later: real, id: string, name: string)
    requires later - now <= l.ttl
    ensures var r' := WithMembers(r, l, members, true, "open_id", true, now);
      ListedLive(r', l, later, id, name) <==> (id != "" && name != "" &&
        ((exists m :: m in members && m.id == id && m.name == name)
         || (r.apiBots.Some? && r.apiBots.value.complete && later - r.apiBots.value.fetchedAt <= l.ttl
             && exists m :: m in r.apiBots.value.members && m.id == id && m.name == name)))
  {
  }

  /** And so does a complete list of bots. */
  lemma BotsCount(r: Roster, l: Limits, bots: seq<Member>, now: real, later: real, id: string, name: string)
    requires later - now <= l.ttl
    ensures var r' := WithBots(r, bots, true, now);
      ListedLive(r', l, later, id, name) <==> (id != "" && name != "" &&
        ((exists m :: m in bots && m.id == id && m.name == name)
         || ("open_id" in r.apiUsers && r.apiUsers["open_id"].complete && later - r.apiUsers["open_id"].fetchedAt <= l.ttl
             && exists m :: m in r.apiUsers["open_id"].members && m.id == id && m.name == name)))
  {
  }

  /** A truncated list of users, or one by another kind of id, changes nobody's name. */
  lemma TruncatedChangesNothing(r: Roster, l: Limits, members: seq<Member>, idType: string, complete: bool, now: real, later: real, id: string, name: string)
    requires !complete || idType != "open_id"
    ensures var r' := WithMembers(r, l, members, true, idType, complete, now);
      && r'.mentions == r.mentions && r'.apiBots == r.apiBots
      && (ListedLive(r', l, later, id, name) <==> ListedLive(r, l, later, id, name))
      && (Carries(r', l, later, id, name) <==> Carries(r, l, later, id, name))
  {
    var r' := WithMembers(r, l, members, true, idType, complete, now);
    forall n
      ensures ListedLive(r', l, later, id, n) <==> ListedLive(r, l, later, id, n)
    {
    }
  }

  /** A complete list drops the mentions of its kind that it does not contain, and no others. */
  lemma RefreshDropsMentions(r: Roster, l: Limits, members: seq<Member>, now: real, id: string)
    requires Kept(r, l)
    ensures var u, b := WithMembers(r, l, members, true, "open_id", true, now), WithBots(r, members, true, now);
      var listed := exists m :: m in members && m.id == id;
      && (id in u.mentions.vals <==> id in r.mentions.vals && (r.mentions.vals[id].isBot || listed))
      && (id in b.mentions.vals <==> id in r.mentions.vals && (!r.mentions.vals[id].isBot || listed))
      && (id in u.mentions.vals ==> u.mentions.vals[id] == r.mentions.vals[id])
      && (id in b.mentions.vals ==> b.mentions.vals[id] == r.mentions.vals[id])
  {
    PopIfIs(r.mentions, r.mentions.keys, (k: string, s: Seen) => s.isBot == false && k !in MemberIds(members));
    PopIfIs(r.mentions, r.mentions.keys, (k: string, s: Seen) => s.isBot == true && k !in MemberIds(members));
    assert id in MemberIds(members) <==> exists m :: m in members && m.id == id;
  }

  /** What was observed of an id: its last named entry. */
  ghost predicate LastSeen(members: seq<Member>, k: nat) {
    k < |members| && members[k].id != "" && members[k].name != ""
    && forall j :: k < j < |members| ==> members[j].id != members[k].id || members[j].name == ""
  }

  /** The mention of `id` after observing, with a member at position `k` that names it last. */
  ghost predicate Noted(mentions: ODict<Seen>, members: seq<Member>, now: real, id: string, d: ODict<Seen>) {
    && (forall k: nat :: LastSeen(members, k) && members[k].id == id ==> id in d.vals && d.vals[id] == Seen(members[k].name, now, members[k].isBot))
    && ((forall k: nat :: LastSeen(members, k) ==> members[k].id != id) ==>
          (id in d.vals <==> id in mentions.vals) && (id in d.vals ==> d.vals[id] == mentions.vals[id]))
  }

  lemma LastSeenNext(members: seq<Member>)
    requires members != []
    ensures var n, front, m := |members| - 1, members[..|members| - 1], members[|members| - 1];
      && (LastSeen(members, n) <==> m.id != "" && m.name != "")
      && forall k: nat :: k < n ==> (LastSeen(members, k) <==> LastSeen(front, k) && (m.id != front[k].id || m.name == ""))
  {
    var n, front := |members| - 1, members[..|members| - 1];
    forall k: nat | k < n
      ensures LastSeen(members, k) <==> LastSeen(front, k) && (members[n].id != front[k].id || members[n].name == "")
    {
      assert forall j :: 0 <= j < n ==> front[j] == members[j];
    }
  }

  lemma NotedNext(mentions: ODict<Seen>, members: seq<Member>, now: real, id: string, d: ODict<Seen>)
    requires members != [] && Noted(mentions, members[..|members| - 1], now, id, d)
    ensures var m := members[|members| - 1];
      Noted(mentions, members, now, id, if m.id == "" || m.name == "" then d else PutLast(d, m.id, Seen(m.name, now, m.isBot)))
  {
    hide Without;
    LastSeenNext(members);
    var n, front := |members| - 1, members[..|members| - 1];
    hide LastSeen;
    assert forall k :: 0 <= k < n ==> front[k] == members[k];
    if members[n].id == id && members[n].name != "" && id != "" {
      assert LastSeen(members, n);
    } else if forall k: nat :: LastSeen(members, k) ==> members[k].id != id {
      forall k: nat | LastSeen(front, k)
        ensures front[k].id != id
      {
        LastSeenBound(front, k);
      }
    }
    forall k: nat | LastSeen(members, k)
      ensures k < |members|
    {
      LastSeenBound(members, k);
    }
  }

  lemma LastSeenBound(members: seq<Member>, k: nat)
    requires LastSeen(members, k)
    ensures k < |members| && members[k].id != ""
  {
  }

  lemma {:induction false} ObservedIs(mentions: ODict<Seen>, members: seq<Member>, now: real, id: string)
    requires Valid(mentions)
    ensures var d := Observed(mentions, members, now);
      Valid(d) && |d.keys| <= |mentions.keys| + |members| && Noted(mentions, members, now, id, d)
  {
    if members == [] {
      NothingNoted(mentions, now, id);
    } else {
      hide Valid, Without, Noted;
      var front, m := members[..|members| - 1], members[|members| - 1];
      ObservedIs(mentions, front, now, id);
      var d := Observed(mentions, front, now);
      PutLastValid(d, m.id, Seen(m.name, now, m.isBot));
      WithoutIs(d.keys, m.id);
      NotedNext(mentions, members, now, id, d);
    }
  }

  lemma NothingNoted(mentions: ODict<Seen>, now: real, id: string)
    ensures Noted(mentions, [], now, id, mentions)
  {
  }

  /** Observing leaves the lists alone; while there is room, everyone who was observed with a name is noted
      as observed last, and the other mentions stay. */
  lemma ObservedIsNoted(r: Roster, l: Limits, members: seq<Member>, idType: string, complete: bool, now: real, id: string)
    requires Kept(r, l) && |r.mentions.keys| + |members| <= l.maxEntries
    ensures var r' := WithMembers(r, l, members, false, idType, complete, now);
      && r'.apiUsers == r.apiUsers && r'.apiBots == r.apiBots
      && (forall k: nat :: LastSeen(members, k) && members[k].id == id ==> id in r'.mentions.vals && r'.mentions.vals[id] == Seen(members[k].name, now, members[k].isBot))
      && ((forall k: nat :: LastSeen(members, k) ==> members[k].id != id) ==>
            (id in r'.mentions.vals <==> id in r.mentions.vals) && (id in r'.mentions.vals ==> r'.mentions.vals[id] == r.mentions.vals[id]))
  {
    ObservedIs(r.mentions, members, now, id);
  }

  // ---- the cache -----------------------------------------------------------------------------------

  type Chats = ODict<Roster>

  /** The roster of a chat unless it has expired. */
  function Live(chats: Chats, chat: string, l: Limits, now: real): Option<Roster> {
    if chat in chats.vals && !(now - chats.vals[chat].updatedAt > l.ttl) then Some(chats.vals[chat]) else None
  }

  function DropStale(chats: Chats, chat: string, l: Limits, now: real): Chats {
    if chat in chats.vals && now - chats.vals[chat].updatedAt > l.ttl then Pop(chats, chat) else chats
  }

  function NewRoster(now: real): Roster {
    Roster(map[], None, Empty(), now)
  }

  /** The registrations that count for a chat now. */
  function ChatRegs(chats: Chats, chat: string, l: Limits, now: real): seq<Reg> {
    match Live(chats, chat, l, now)
    case None => []
    case Some(r) => Regs(r, l, now)
  }

  function Expired(l: Limits, now: real): (string, Seen) -> bool {
    (k: string, s: Seen) => now - s.at > l.mentionTtl
  }

  function LiveMentions(mentions: ODict<Seen>, l: Limits, now: real): ODict<Seen> {
    PopIf(mentions, mentions.keys, Expired(l, now))
  }

  /** What building an index leaves: an expired roster and expired observations are gone. */
  function Pruned(chats: Chats, chat: string, l: Limits, now: real): Chats {
    var left := DropStale(chats, chat, l, now);
    match Live(chats, chat, l, now)
    case None => left
    case Some(r) => left.(vals := left.vals[chat := r.(mentions := LiveMentions(r.mentions, l, now))])
  }

  lemma {:induction false} WithoutSnoc(keys: seq<string>, x: string, k: string)
    ensures Without(keys + [x], k) == Without(keys, k) + if x == k then [] else [x]
  {
    if keys == [] {
      assert keys + [x] == [x];
    } else {
      assert (keys + [x])[1..] == keys[1..] + [x];
      WithoutSnoc(keys[1..], x, k);
    }
  }

  /** An observation that has expired contributes nothing, so removing it changes nothing. */
  lemma {:induction false} ExpiredContributesNothing(keys: seq<string>, vals: map<string, Seen>, k: string, apiIds: set<string>, l: Limits, now: real)
    requires k in vals ==> now - vals[k].at > l.mentionTtl
    ensures MentionRegs(Without(keys, k), vals - {k}, apiIds, l, now) == MentionRegs(keys, vals, apiIds, l, now)
  {
    if keys != [] {
      var front, x := keys[..|keys| - 1], keys[|keys| - 1];
      ExpiredContributesNothing(front, vals, k, apiIds, l, now);
      assert keys == front + [x];
      WithoutSnoc(front, x, k);
      if x != k {
        var w := Without(front, k) + [x];
        assert w[..|w| - 1] == Without(front, k);
      } else {
        assert Without(keys, k) == Without(front, k);
        assert MentionRegs(keys, vals, apiIds, l, now) == MentionRegs(front, vals, apiIds, l, now);
      }
    }
  }

  lemma {:induction false} PopExpiredUnseen(d: ODict<Seen>, keys: seq<string>, apiIds: set<string>, l: Limits, now: real, later: real)
    requires now <= later
    ensures var r := PopIf(d, keys, Expired(l, now));
      MentionRegs(r.keys, r.vals, apiIds, l, later) == MentionRegs(d.keys, d.vals, apiIds, l, later)
  {
    if keys != [] {
      var front, k := keys[..|keys| - 1], keys[|keys| - 1];
      PopExpiredUnseen(d, front, apiIds, l, now, later);
      var rest := PopIf(d, front, Expired(l, now));
      if k in rest.vals && now - rest.vals[k].at > l.mentionTtl {
        ExpiredContributesNothing(rest.keys, rest.vals, k, apiIds, l, later);
      }
    }
  }

  /** Reading is unobservable: whatever is asked later, about any chat, finds the same registrations. */
  lemma PruningUnseen(chats: Chats, chat: string, l: Limits, now: real, other: string, later: real)
    requires now <= later
    ensures ChatRegs(Pruned(chats, chat, l, now), other, l, later) == ChatRegs(chats, other, l, later)
  {
    var live := Live(chats, chat, l, now);
    if live.Some? {
      var r := live.value;
      PopExpiredUnseen(r.mentions, r.mentions.keys, IdsOf(ApiRegs(r, l, later)), l, now, later);
    }
  }

  lemma StoredLast(chats: Chats, chat: string, r: Roster, max: nat)
    requires Valid(chats) && max > 0
    ensures var d := Evict(PutLast(chats, chat, r), max); chat in d.vals && d.vals[chat] == r
  {
    var put := PutLast(chats, chat, r);
    PutLastValid(chats, chat, r);
    WithoutIs(chats.keys, chat);
    AfterLast(Without(chats.keys, chat), chat);
    EvictKeeps(put, chat, max);
    EvictValid(put, max);
  }

  class ChatMemberCache {
    const limits: Limits
    var chats: Chats

    ghost predicate Ok()
      reads this
    {
      Valid(chats) && |chats.keys| <= limits.maxChats && forall c :: c in chats.vals ==> Kept(chats.vals[c], limits)
    }

    constructor (limits: Limits)
      ensures Ok() && chats == Empty() && this.limits == limits
    {
      this.limits, chats := limits, Empty();
    }

    method LiveRoster(chat: string, now: real) returns (r: Option<Roster>)
      requires Ok()
      modifies this
      ensures Ok() && r == Live(old(chats), chat, limits, now) && chats == DropStale(old(chats), chat, limits, now)
      ensures r.Some? ==> Kept(r.value, limits)
    {
      if chat !in chats.vals {
        return None;
      }
      r := Some(chats.vals[chat]);
      if now - r.value.updatedAt > limits.ttl {
        PopValid(chats, chat);
        chats := Pop(chats, chat);
        return None;
      }
    }

    method RosterForWrite(chat: string, now: real) returns (r: Roster)
      requires Ok()
      modifies this
      ensures Ok() && chats == DropStale(old(chats), chat, limits, now) && Kept(r, limits)
      ensures r == match Live(old(chats), chat, limits, now) case None => NewRoster(now) case Some(live) => live
    {
      var live := LiveRoster(chat, now);
      r := if live.Some? then live.value else NewRoster(now);
    }

    method Store(chat: string, r: Roster)
      requires Ok() && Kept(r, limits)
      modifies this
      ensures Ok() && chats == Evict(PutLast(old(chats), chat, r), limits.maxChats)
      ensures limits.maxChats > 0 ==> chat in chats.vals && chats.vals[chat] == r
    {
      if limits.maxChats > 0 {
        StoredLast(chats, chat, r, limits.maxChats);
      }
      PutLastValid(chats, chat, r);
      EvictValid(PutLast(chats, chat, r), limits.maxChats);
      chats := PutLast(chats, chat, r);
      while |chats.keys| > limits.maxChats
        invariant Evict(chats, limits.maxChats) == Evict(PutLast(old(chats), chat, r), limits.maxChats)
        decreases |chats.keys|
      {
        chats := PopFirst(chats);
      }
    }

    method SetMembers(chat: string, members: seq<Member>, fromApi: bool, idType: string, complete: bool, now: real)
      requires Ok()
      modifies this
      ensures Ok()
      ensures var base := match Live(old(chats), chat, limits, now) case None => NewRoster(now) case Some(live) => live;
        chats == Evict(PutLast(DropStale(old(chats), chat, limits, now), chat,
                               WithMembers(base, limits, members, fromApi, idType, complete, now)), limits.maxChats)
    {
      var roster := RosterForWrite(chat, now);
      ghost var base := roster;
      WithMembersKept(base, limits, members, fromApi, idType, complete, now);
      if fromApi {
        var known := idType in roster.apiUsers;
        if complete || !known || !roster.apiUsers[idType].complete {
          roster := roster.(apiUsers := roster.apiUsers[idType := Snapshot(members, idType, complete, now)]);
        }
        if complete && idType == "open_id" {
          var mentions := ReconcileMentions(roster.mentions, MemberIds(members), false);
          roster := roster.(mentions := mentions);
        }
      } else {
        var mentions := roster.mentions;
        for k := 0 to |members|
          invariant mentions == Observed(base.mentions, members[..k], now)
        {
          assert members[..k + 1][..k] == members[..k];
          var m := members[k];
          if m.id == "" || m.name == "" {
            continue;
          }
          mentions := PutLast(mentions, m.id, Seen(m.name, now, m.isBot));
        }
        assert members[..|members|] == members;
        roster := roster.(mentions := Evict(mentions, limits.maxEntries));
      }
      roster := roster.(updatedAt := now);
      Store(chat, roster);
    }

    method SetBots(chat: string, bots: seq<Member>, complete: bool, now: real)
      requires Ok()
      modifies this
      ensures Ok()
      ensures var base := match Live(old(chats), chat, limits, now) case None => NewRoster(now) case Some(live) => live;
        chats == Evict(PutLast(DropStale(old(chats), chat, limits, now), chat, WithBots(base, bots, complete, now)), limits.maxChats)
    {
      var roster := RosterForWrite(chat, now);
      WithBotsKept(roster, limits, bots, complete, now);
      roster := roster.(apiBots := Some(Snapshot(bots, "open_id", complete, now)));
      if complete {
        var mentions := ReconcileMentions(roster.mentions, MemberIds(bots), true);
        roster := roster.(mentions := mentions);
      }
      roster := roster.(updatedAt := now);
      Store(chat, roster);
    }

    method ReconcileMentions(mentions: ODict<Seen>, ids: set<string>, wantBot: bool) returns (r: ODict<Seen>)
      ensures r == Reconciled(mentions, ids, wantBot)
    {
      ghost var bad := (k: string, s: Seen) => s.isBot == wantBot && k !in ids;
      r := mentions;
      for k := 0 to |mentions.keys|
        invariant r == PopIf(mentions, mentions.keys[..k], bad)
      {
        assert mentions.keys[..k + 1][..k] == mentions.keys[..k];
        var id := mentions.keys[k];
        if id in r.vals && r.vals[id].isBot == wantBot && id !in ids {
          r := Pop(r, id);
        }
      }
      assert mentions.keys[..|mentions.keys|] == mentions.keys;
    }

    /** Builds the index of a chat; observations found expired are dropped on the way. */
    method BuildIndex(chat: string, now: real) returns (x: Index)
      requires Ok()
      modifies this
      ensures Ok() && x == IndexOf(ChatRegs(old(chats), chat, limits, now))
      ensures chats == Pruned(old(chats), chat, limits, now)
    {
      var live := LiveRoster(chat, now);
      x := Index(map[], map[], {});
      if live.None? {
        return;
      }
      var roster := live.value;
      ghost var users: seq<Reg> := [];
      if "open_id" in roster.apiUsers && Counts(roster.apiUsers["open_id"], limits, now) {
        users := NamedRegs(roster.apiUsers["open_id"].members);
        x := RegisterAll([], x, roster.apiUsers["open_id"].members);
        assert [] + users == users;
      }
      ghost var api := users;
      if roster.apiBots.Some? && Counts(roster.apiBots.value, limits, now) {
        api := users + NamedRegs(roster.apiBots.value.members);
        x := RegisterAll(users, x, roster.apiBots.value.members);
      }
      assert api == ApiRegs(roster, limits, now) by {
        assert users + [] == users;
      }
      var mentions;
      x, mentions := RegisterMentions(roster, x, now);
      chats := chats.(vals := chats.vals[chat := roster.(mentions := mentions)]);
    }

    method RegisterAll(ghost before: seq<Reg>, x0: Index, members: seq<Member>) returns (x: Index)
      requires x0 == IndexOf(before)
      ensures x == IndexOf(before + NamedRegs(members))
    {
      x := x0;
      assert before + NamedRegs(members[..0]) == before;
      for k := 0 to |members|
        invariant x == IndexOf(before + NamedRegs(members[..k]))
      {
        var m := members[k];
        assert members[..k + 1][..k] == members[..k];
        ghost var done := before + NamedRegs(members[..k]);
        if m.id != "" && m.name != "" {
          assert before + NamedRegs(members[..k + 1]) == done + [Reg(m.id, m.name, true)];
          assert (done + [Reg(m.id, m.name, true)])[..|done|] == done;
          x := Register(x, Reg(m.id, m.name, true));
        } else {
          assert before + NamedRegs(members[..k + 1]) == done;
        }
      }
      assert members[..|members|] == members;
    }

    method RegisterMentions(roster: Roster, x0: Index, now: real) returns (x: Index, mentions: ODict<Seen>)
      requires Kept(roster, limits) && x0 == IndexOf(ApiRegs(roster, limits, now))
      ensures x == IndexOf(Regs(roster, limits, now))
      ensures Kept(roster.(mentions := mentions), limits) && mentions == LiveMentions(roster.mentions, limits, now)
    {
      hide ApiRegs, MentionRegs, Register, IdsOf, Distinct, IndexOf, PopIf, Proper;
      ghost var api := ApiRegs(roster, limits, now);
      ghost var apiIds := IdsOf(api);
      var keys, vals := roster.mentions.keys, roster.mentions.vals;
      ghost var bad := Expired(limits, now);
      RegsProper(roster, limits, now);
      ApiIdsAre(api);
      x, mentions := x0, roster.mentions;
      NoMentionRegs(vals, apiIds, limits, now);
      PopIfNone(roster.mentions, bad);
      assert keys[..0] == [];
      assert api + [] == api;
      for k := 0 to |keys|
        invariant x == IndexOf(api + MentionRegs(keys[..k], vals, apiIds, limits, now))
        invariant forall id :: id in x.apiIds <==> id in apiIds
        invariant mentions == PopIf(roster.mentions, keys[..k], bad)
      {
        var id, seen := keys[k], vals[keys[k]];
        ghost var ms := MentionRegs(keys[..k], vals, apiIds, limits, now);
        MentionRegsStep(keys, k, vals, apiIds, limits, now);
        PopIfIs(roster.mentions, keys[..k], bad);
        PopIfStep(roster.mentions, keys, k, bad);
        NotBefore(keys, k);
        if now - seen.at > limits.mentionTtl {
          mentions := Pop(mentions, id);
          continue;
        }
        if id in x.apiIds {
          continue;
        }
        assert (api + ms) + [Reg(id, seen.name, false)] == api + (ms + [Reg(id, seen.name, false)]);
        IndexSnoc(api + ms, Reg(id, seen.name, false));
        x := Register(x, Reg(id, seen.name, false));
      }
      assert keys[..|keys|] == keys;
      PopIfIs(roster.mentions, keys, bad);
    }

    /** The id to mention for a name, or none. */
    method ResolveOpenId(chat: string, name: string, now: real) returns (r: Option<string>)
      requires Ok()
      modifies this
      ensures Ok() && chats == Pruned(old(chats), chat, limits, now)
      ensures var regs := ChatRegs(old(chats), chat, limits, now);
        && (r.Some? ==> forall id :: NameOf(regs, id) == Some(name) <==> id == r.value)
        && (r.Some? ==> chat in old(chats).vals && now - old(chats).vals[chat].updatedAt <= limits.ttl)
        && (r.Some? ==> Carries(old(chats).vals[chat], limits, now, r.value, name))
        && forall id :: r == Some(id) <==> NameOf(regs, id) == Some(name) && !Contested(regs, name)
      // Whoever carries the name unmistakably is found.
      ensures chat in old(chats).vals && now - old(chats).vals[chat].updatedAt <= limits.ttl ==>
        forall id :: Unmistakable(old(chats).vals[chat], limits, now, id, name) ==> r == Some(id)
    {
      var x := BuildIndex(chat, now);
      r := Resolve(x, name);
      ghost var regs := ChatRegs(old(chats), chat, limits, now);
      ghost var live := Live(old(chats), chat, limits, now);
      if live.Some? {
        RegsProper(live.value, limits, now);
        NeverTheWrongPerson(regs, name);
        if r.Some? {
          assert NameOf(regs, r.value) == Some(name);
          NamesAreBacked(live.value, limits, now, r.value, name);
        }
        forall id | Unmistakable(live.value, limits, now, id, name)
          ensures r == Some(id)
        {
          CarrierResolves(live.value, limits, now, id, name);
        }
      }
    }

    method ResolveName(chat: string, id: string, now: real) returns (r: Option<string>)
      requires Ok()
      modifies this
      ensures Ok() && r == NameOf(ChatRegs(old(chats), chat, limits, now), id)
      ensures r.Some? ==> chat in old(chats).vals && now - old(chats).vals[chat].updatedAt <= limits.ttl
      ensures chats == Pruned(old(chats), chat, limits, now)
      ensures chat in old(chats).vals && now - old(chats).vals[chat].updatedAt <= limits.ttl ==>
        && (r.Some? ==> Carries(old(chats).vals[chat], limits, now, id, r.value))
        && forall name :: OneName(old(chats).vals[chat], limits, now, id, name) ==> r == Some(name)
    {
      var x := BuildIndex(chat, now);
      r := if id in x.byOpenId then Some(x.byOpenId[id]) else None;
      ghost var live := Live(old(chats), chat, limits, now);
      if live.Some? {
        RegsProper(live.value, limits, now);
        IndexFaithful(Regs(live.value, limits, now));
        if r.Some? {
          NamesAreBacked(live.value, limits, now, id, r.value);
        }
        forall name | OneName(live.value, limits, now, id, name)
          ensures r == Some(name)
        {
          OneNameIsName(live.value, limits, now, id, name);
        }
      }
    }
  }

  lemma IndexSnoc(regs: seq<Reg>, r: Reg)
    ensures IndexOf(regs + [r]) == Register(IndexOf(regs), r)
    ensures !r.isApi ==> IndexOf(regs + [r]).apiIds == IndexOf(regs).apiIds
  {
    assert (regs + [r])[..|regs|] == regs;
  }

  lemma NotBefore(keys: seq<string>, k: nat)
    requires Distinct(keys) && k < |keys|
    ensures keys[k] !in keys[..k]
  {
  }

  lemma MentionRegsStep(keys: seq<string>, k: nat, vals: map<string, Seen>, apiIds: set<string>, l: Limits, now: real)
    requires k < |keys|
    ensures var ms := MentionRegs(keys[..k], vals, apiIds, l, now);
      MentionRegs(keys[..k + 1], vals, apiIds, l, now) ==
      if keys[k] in vals && !(now - vals[keys[k]].at > l.mentionTtl) && keys[k] !in apiIds
      then ms + [Reg(keys[k], vals[keys[k]].name, false)] else ms
  {
    assert keys[..k + 1][..k] == keys[..k];
  }

  lemma NoMentionRegs(vals: map<string, Seen>, apiIds: set<string>, l: Limits, now: real)
    ensures MentionRegs([], vals, apiIds, l, now) == []
  {
  }

  lemma {:induction false} ApiIdsAre(regs: seq<Reg>)
    requires forall r :: r in regs ==> r.isApi && r.id != "" && r.name != ""
    ensures forall id :: id in IndexOf(regs).apiIds <==> id in IdsOf(regs)
  {
    if regs != [] {
      var front, r := regs[..|regs| - 1], regs[|regs| - 1];
      ApiIdsAre(front);
      assert regs == front + [r];
      assert IdsOf(regs) == IdsOf(front) + {r.id};
    }
  }
}
