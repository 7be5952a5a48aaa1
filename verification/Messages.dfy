/** Inbound messages and the merging of a batch into one virtual message. */
module Messages {
  import opened Wrappers

  datatype Mention = Mention(key: string, openId: string, userId: string, name: string)

  /** What a mention counts as when duplicates are dropped. */
  function Sig(m: Mention): string {
    if m.openId != "" then m.openId else if m.userId != "" then m.userId else m.key
  }

  /** `TextContent`, or any other content, which may carry a title. */
  datatype Content = Text(text: string, raw: nat) | Other(title: string, raw: nat)

  function Words(c: Content): string {
    match c
    case Text(text, _) => text
    case Other(title, _) => title
  }

  /** Conversation, sender, reply reference and raw payload are passed through untouched, so they
      are represented by opaque values. */
  datatype InboundMessage = InboundMessage(
    id: string, createTime: int, conversation: string, sender: string,
    mentions: seq<Mention>, mentionedAll: bool, mentionedBot: bool, reply: nat,
    content: Content, raw: nat, chatMode: Option<string>,
    contentText: string, safeContentText: string, bodyText: string,
    rawContentType: string, resources: seq<string>, batchedSources: seq<InboundMessage>)

  type Batch = seq<InboundMessage>

  /** `len(getattr(content, "text", "") or "")`. */
  function Chars(m: InboundMessage): nat {
    if m.content.Text? then |m.content.text| else 0
  }

  function TotalChars(batch: Batch): nat {
    if batch == [] then 0 else TotalChars(batch[..|batch| - 1]) + Chars(batch[|batch| - 1])
  }

  // ---- specification of a merge ----------------------------------------------------------------

  /** The non-empty strings, separated by a blank line. */
  function JoinNonEmpty(parts: seq<string>): string {
    if parts == [] then ""
    else
      var front, last := JoinNonEmpty(parts[..|parts| - 1]), parts[|parts| - 1];
      if last == "" then front else if front == "" then last else front + "\n\n" + last
  }

  /** The text views of a message. */
  datatype View = ContentWords | ContentText | SafeText | BodyText

  function ViewOf(m: InboundMessage, view: View): string {
    match view
    case ContentWords => Words(m.content)
    case ContentText => m.contentText
    case SafeText => m.safeContentText
    case BodyText => m.bodyText
  }

  function Views(batch: Batch, view: View): seq<string> {
    seq(|batch|, k requires 0 <= k < |batch| => ViewOf(batch[k], view))
  }

  function JoinedView(batch: Batch, view: View): string {
    JoinNonEmpty(Views(batch, view))
  }

  function AllResources(batch: Batch): seq<string> {
    if batch == [] then [] else AllResources(batch[..|batch| - 1]) + batch[|batch| - 1].resources
  }

  predicate Somewhere(m: Mention, batch: Batch) {
    exists k :: 0 <= k < |batch| && m in batch[k].mentions
  }

  predicate Known(account: string, mentions: seq<Mention>) {
    exists k :: 0 <= k < |mentions| && Sig(mentions[k]) == account
  }

  function AllMentions(batch: Batch): seq<Mention> {
    if batch == [] then [] else AllMentions(batch[..|batch| - 1]) + batch[|batch| - 1].mentions
  }

  function Accounts(mentions: seq<Mention>): set<string> {
    set m | m in mentions :: Sig(m)
  }

  /** The first mention of each account, in order of appearance, without those in `own`. */
  function Firsts(all: seq<Mention>, own: seq<Mention>): seq<Mention> {
    if all == [] then []
    else
      var front, m := all[..|all| - 1], all[|all| - 1];
      Firsts(front, own) + if Sig(m) in Accounts(front) || m in own then [] else [m]
  }

  /** The last message's mentions, unchanged, then the first mention of every other account. */
  ghost predicate MentionsUnited(batch: Batch, mentions: seq<Mention>)
    requires batch != []
  {
    var own := batch[|batch| - 1].mentions;
    mentions == own + Firsts(AllMentions(batch), own)
  }

  lemma KnownGrows(account: string, fewer: seq<Mention>, more: seq<Mention>)
    requires fewer <= more
    ensures Known(account, fewer) ==> Known(account, more)
    ensures forall m :: m in more ==> Known(Sig(m), more)
  {
    if Known(account, fewer) {
      var k :| 0 <= k < |fewer| && Sig(fewer[k]) == account;
      assert more[k] == fewer[k];
    }
  }

  lemma {:induction false} FirstsAre(all: seq<Mention>, own: seq<Mention>)
    ensures var f := Firsts(all, own);
      && (forall m :: m in f ==> m in all && m !in own)
      && (forall m :: m in all ==> Known(Sig(m), own + f))
      && forall i, j :: 0 <= i < j < |f| ==> Sig(f[i]) != Sig(f[j])
  {
    hide Known, Sig;
    if all != [] {
      var front, m := all[..|all| - 1], all[|all| - 1];
      FirstsAre(front, own);
      assert all == front + [m];
      var f, g := Firsts(front, own), Firsts(all, own);
      forall x | x in all
        ensures Known(Sig(x), own + g)
      {
        KnownGrows(Sig(x), own + f, own + g);
        if x == m && Sig(m) in Accounts(front) {
          var y :| y in front && Sig(y) == Sig(m);
        }
      }
    }
  }

  /** The account a mention stands for: the open_id, or else the user_id, or else the key. */
  predicate StandsFor(m: Mention, account: string) {
    || (m.openId != "" && account == m.openId)
    || (m.openId == "" && m.userId != "" && account == m.userId)
    || (m.openId == "" && m.userId == "" && account == m.key)
  }

  lemma SigIs(m: Mention, account: string)
    ensures StandsFor(m, account) <==> account == Sig(m)
  {
  }

  lemma KnownMeans(account: string, mentions: seq<Mention>)
    requires Known(account, mentions)
    ensures exists i :: 0 <= i < |mentions| && StandsFor(mentions[i], account)
  {
    var i :| 0 <= i < |mentions| && Sig(mentions[i]) == account;
    SigIs(mentions[i], account);
  }

  lemma {:induction false} AllMentionsAre(batch: Batch)
    ensures forall k, j :: 0 <= k < |batch| && 0 <= j < |batch[k].mentions| ==> batch[k].mentions[j] in AllMentions(batch)
    ensures forall m :: m in AllMentions(batch) ==> Somewhere(m, batch)
  {
    if batch != [] {
      var front := batch[..|batch| - 1];
      AllMentionsAre(front);
      assert forall k :: 0 <= k < |front| ==> batch[k] == front[k];
      forall m | m in AllMentions(batch)
        ensures Somewhere(m, batch)
      {
        if m in AllMentions(front) {
          var k :| 0 <= k < |front| && m in front[k].mentions;
          assert m in batch[k].mentions;
        }
      }
    }
  }

  /** The chat mode of the last message, or else the first known one of the batch. */
  ghost predicate ChatModeChosen(batch: Batch, mode: Option<string>)
    requires batch != []
  {
    var own := batch[|batch| - 1].chatMode;
    if own.Some? then mode == own
    else if mode.None? then forall k :: 0 <= k < |batch| ==> batch[k].chatMode.None?
    else exists k :: 0 <= k < |batch| && FirstKnownMode(batch, k, mode)
  }

  ghost predicate FirstKnownMode(batch: Batch, k: nat, mode: Option<string>)
    requires k < |batch|
  {
    batch[k].chatMode == mode && forall j :: 0 <= j < k ==> batch[j].chatMode.None?
  }

  ghost predicate Merges(batch: Batch, r: InboundMessage)
    requires batch != []
  {
    var last := batch[|batch| - 1];
    if |batch| == 1 then r == last
    else
      var text := JoinedView(batch, ContentWords);
      && r.id == last.id && r.createTime == last.createTime && r.conversation == last.conversation
      && r.sender == last.sender && r.reply == last.reply && r.raw == last.raw
      && r.rawContentType == last.rawContentType
      && r.content == (if last.content.Text? && text != "" then last.content.(text := text) else last.content)
      && r.contentText == JoinedView(batch, ContentText)
      && r.safeContentText == JoinedView(batch, SafeText)
      && r.bodyText == JoinedView(batch, BodyText)
      && r.resources == AllResources(batch)
      && r.batchedSources == batch
      && (r.mentionedAll <==> exists k :: 0 <= k < |batch| && batch[k].mentionedAll)
      && (r.mentionedBot <==> exists k :: 0 <= k < |batch| && batch[k].mentionedBot)
      && MentionsUnited(batch, r.mentions)
      && ChatModeChosen(batch, r.chatMode)
  }

  /** The merged message mentions every account that is mentioned in the batch, invents nothing, keeps the last
      message's own mentions, and adds no two that stand for the same account. */
  lemma UnitedMentions(batch: Batch, r: InboundMessage)
    requires batch != [] && Merges(batch, r)
    ensures var own := batch[|batch| - 1].mentions;
      && own <= r.mentions
      && (forall k, j, account :: 0 <= k < |batch| && 0 <= j < |batch[k].mentions| && StandsFor(batch[k].mentions[j], account) ==>
           exists i :: 0 <= i < |r.mentions| && StandsFor(r.mentions[i], account))
      && (forall m :: m in r.mentions ==> Somewhere(m, batch))
      && forall i, j, account :: |own| <= i < j < |r.mentions| ==> !(StandsFor(r.mentions[i], account) && StandsFor(r.mentions[j], account))
  {
    hide StandsFor, JoinedView, AllResources, MentionsUnited, ChatModeChosen;
    if |batch| > 1 {
      MentionsOf(batch, r.mentions);
    }
  }

  lemma MentionsOf(batch: Batch, mentions: seq<Mention>)
    requires batch != [] && MentionsUnited(batch, mentions)
    ensures var own := batch[|batch| - 1].mentions;
      && own <= mentions
      && (forall k, j, account :: 0 <= k < |batch| && 0 <= j < |batch[k].mentions| && StandsFor(batch[k].mentions[j], account) ==>
           exists i :: 0 <= i < |mentions| && StandsFor(mentions[i], account))
      && (forall m :: m in mentions ==> Somewhere(m, batch))
      && forall i, j, account :: |own| <= i < j < |mentions| ==> !(StandsFor(mentions[i], account) && StandsFor(mentions[j], account))
  {
    hide Firsts, Known, Sig, StandsFor;
    var own := batch[|batch| - 1].mentions;
    AllMentionsAre(batch);
    FirstsAre(AllMentions(batch), own);
    forall m: Mention, account
      ensures StandsFor(m, account) <==> account == Sig(m)
    {
      SigIs(m, account);
    }
    forall k, j, account | 0 <= k < |batch| && 0 <= j < |batch[k].mentions| && StandsFor(batch[k].mentions[j], account)
      ensures exists i :: 0 <= i < |mentions| && StandsFor(mentions[i], account)
    {
      KnownMeans(account, mentions);
    }
  }

  /** The last message's own chat mode, or else the first known one of the batch, or none. */
  lemma FirstModeCounts(batch: Batch, r: InboundMessage, k: nat)
    requires batch != [] && Merges(batch, r) && k < |batch| && forall j :: 0 <= j < k ==> batch[j].chatMode.None?
    ensures batch[|batch| - 1].chatMode.Some? ==> r.chatMode == batch[|batch| - 1].chatMode
    ensures batch[|batch| - 1].chatMode.None? && (batch[k].chatMode.Some? || k == |batch| - 1) ==> r.chatMode == batch[k].chatMode
  {
    hide JoinedView, AllResources, MentionsUnited;
  }

  /** Two texts with a blank line in between, if there are two. */
  function Glue(a: string, b: string): string {
    if a == "" then b else if b == "" then a else a + "\n\n" + b
  }

  lemma FrontOfConcat<T>(a: seq<T>, b: seq<T>)
    requires b != []
    ensures (a + b)[..|a + b| - 1] == a + b[..|b| - 1] && (a + b)[|a + b| - 1] == b[|b| - 1]
  {
  }

  lemma {:induction false} JoinConcat(a: seq<string>, b: seq<string>)
    ensures JoinNonEmpty(a + b) == Glue(JoinNonEmpty(a), JoinNonEmpty(b))
  {
    if b == [] {
      assert a + b == a;
    } else {
      var front, last := b[..|b| - 1], b[|b| - 1];
      JoinConcat(a, front);
      FrontOfConcat(a, b);
      GlueAssoc(JoinNonEmpty(a), JoinNonEmpty(front), last);
    }
  }

  lemma GlueAssoc(a: string, b: string, c: string)
    ensures Glue(Glue(a, b), c) == Glue(a, Glue(b, c))
  {
    assert (a + "\n\n" + b) + "\n\n" + c == a + "\n\n" + (b + "\n\n" + c);
  }

  lemma ViewConcat(a: Batch, b: Batch, view: View)
    ensures JoinedView(a + b, view) == Glue(JoinedView(a, view), JoinedView(b, view))
  {
    hide JoinNonEmpty, Views, Glue;
    JoinConcat(Views(a, view), Views(b, view));
    ViewsConcat(a, b, view);
  }

  lemma ViewsConcat(a: Batch, b: Batch, view: View)
    ensures Views(a + b, view) == Views(a, view) + Views(b, view)
  {
    hide ViewOf;
  }

  lemma {:induction false} ResourcesConcat(a: Batch, b: Batch)
    ensures AllResources(a + b) == AllResources(a) + AllResources(b)
  {
    if b == [] {
      assert a + b == a;
    } else {
      var front, last := b[..|b| - 1], b[|b| - 1];
      ResourcesConcat(a, front);
      FrontOfConcat(a, b);
      Assoc(AllResources(a), AllResources(front), last.resources);
    }
  }

  lemma OneView(m: InboundMessage, view: View)
    ensures JoinedView([m], view) == ViewOf(m, view) && AllResources([m]) == m.resources
  {
    var v := Views([m], view);
    assert v == [ViewOf(m, view)] && v[..|v| - 1] == [] && JoinNonEmpty([]) == "";
    var one := [m];
    assert one[..|one| - 1] == [] && AllResources([]) == [];
  }

  /** A merged message reads as the views of its batch say, one message or many. */
  lemma MergedReads(batch: Batch, r: InboundMessage)
    requires batch != [] && Merges(batch, r)
    ensures r.contentText == JoinedView(batch, ContentText) && r.safeContentText == JoinedView(batch, SafeText)
    ensures r.bodyText == JoinedView(batch, BodyText) && r.resources == AllResources(batch)
    ensures r.mentionedAll <==> exists k :: 0 <= k < |batch| && batch[k].mentionedAll
    ensures r.mentionedBot <==> exists k :: 0 <= k < |batch| && batch[k].mentionedBot
    ensures r.content.Text? <==> batch[|batch| - 1].content.Text?
    ensures r.content.Text? ==> r.content == batch[|batch| - 1].content.(text := JoinedView(batch, ContentWords))
  {
    hide JoinedView, AllResources, MentionsUnited, ChatModeChosen;
    if |batch| == 1 {
      assert batch == [batch[0]];
      forall view {
        OneView(batch[0], view);
      }
    } else if r.content.Text? {
      LastWordsEmpty(batch);
    }
  }

  lemma LastWordsEmpty(batch: Batch)
    requires batch != []
    ensures JoinedView(batch, ContentWords) == "" ==> Words(batch[|batch| - 1].content) == ""
  {
    var front, last := batch[..|batch| - 1], [batch[|batch| - 1]];
    assert batch == front + last;
    ViewConcat(front, last, ContentWords);
    OneView(last[0], ContentWords);
  }

  /** Merging in two steps reads the same as merging at once: each text of the whole is the texts of the two
      parts with a blank line in between, the resources follow each other, and what either part says of
      mentions holds of the whole. The rest is the last message's. */
  lemma MergingInSteps(a: Batch, b: Batch, ra: InboundMessage, rb: InboundMessage, r: InboundMessage)
    requires a != [] && b != [] && Merges(a, ra) && Merges(b, rb) && Merges(a + b, r)
    ensures r.contentText == Glue(ra.contentText, rb.contentText) && r.safeContentText == Glue(ra.safeContentText, rb.safeContentText)
    ensures r.bodyText == Glue(ra.bodyText, rb.bodyText) && r.resources == ra.resources + rb.resources
    ensures r.mentionedAll == (ra.mentionedAll || rb.mentionedAll) && r.mentionedBot == (ra.mentionedBot || rb.mentionedBot)
    ensures ra.content.Text? && rb.content.Text? ==> r.content == rb.content.(text := Glue(ra.content.text, rb.content.text))
    ensures !rb.content.Text? ==> r.content == rb.content
    ensures (r.id, r.createTime, r.conversation, r.sender, r.reply, r.raw, r.rawContentType)
      == (rb.id, rb.createTime, rb.conversation, rb.sender, rb.reply, rb.raw, rb.rawContentType)
    ensures r.batchedSources == a + b
  {
    hide JoinedView, AllResources, MentionsUnited, ChatModeChosen;
    MergedReads(a, ra);
    MergedReads(b, rb);
    MergedReads(a + b, r);
    forall view {
      ViewConcat(a, b, view);
    }
    ResourcesConcat(a, b);
    assert forall k :: 0 <= k < |b| ==> (a + b)[|a| + k] == b[k];
    assert forall k :: 0 <= k < |a| ==> (a + b)[k] == a[k];
  }

  /** What counts against the character limit: the characters of text messages. */
  lemma CharsCounted(batch: Batch, m: InboundMessage)
    ensures TotalChars([]) == 0
    ensures TotalChars(batch + [m]) == TotalChars(batch) + if m.content.Text? then |m.content.text| else 0
  {
    assert (batch + [m])[..|batch|] == batch;
  }

  // ---- the merge -------------------------------------------------------------------------------

  method JoinView(batch: Batch, view: View) returns (r: string)
    ensures r == JoinedView(batch, view)
  {
    r := "";
    for k := 0 to |batch|
      invariant r == JoinNonEmpty(Views(batch, view)[..k])
    {
      var v := ViewOf(batch[k], view);
      if v != "" {
        r := if r == "" then v else r + "\n\n" + v;
      }
      assert Views(batch, view)[..k + 1][..k] == Views(batch, view)[..k];
    }
    assert Views(batch, view)[..|batch|] == Views(batch, view);
  }

  method JoinResources(batch: Batch) returns (r: seq<string>)
    ensures r == AllResources(batch)
  {
    r := [];
    for k := 0 to |batch|
      invariant r == AllResources(batch[..k])
    {
      r := r + batch[k].resources;
      assert batch[..k + 1][..k] == batch[..k];
    }
    assert batch[..|batch|] == batch;
  }

  lemma FirstsSnoc(all: seq<Mention>, own: seq<Mention>, m: Mention)
    ensures Firsts(all + [m], own) == Firsts(all, own) + if Sig(m) in Accounts(all) || m in own then [] else [m]
    ensures Accounts(all + [m]) == Accounts(all) + {Sig(m)}
    ensures Sig(m) !in Accounts(all) ==> m !in Firsts(all, own)
  {
    assert (all + [m])[..|all|] == all;
    FirstsAre(all, own);
  }

  /** Adds the mentions of one message whose account was not seen before. */
  method AddMentions(ms: seq<Mention>, all0: seq<Mention>, seen0: set<string>, ghost before: seq<Mention>, ghost own: seq<Mention>)
    returns (all: seq<Mention>, seen: set<string>)
    requires all0 == own + Firsts(before, own) && seen0 == Accounts(before)
    ensures all == own + Firsts(before + ms, own) && seen == Accounts(before + ms)
  {
    hide Firsts, Accounts, Sig;
    all, seen := all0, seen0;
    assert before + ms[..0] == before;
    for k := 0 to |ms|
      invariant all == own + Firsts(before + ms[..k], own) && seen == Accounts(before + ms[..k])
    {
      assert before + ms[..k + 1] == (before + ms[..k]) + [ms[k]];
      FirstsSnoc(before + ms[..k], own, ms[k]);
      if Sig(ms[k]) in seen {
        assert seen + {Sig(ms[k])} == seen;
        continue;
      }
      seen := seen + {Sig(ms[k])};
      if ms[k] !in all {
        all := all + [ms[k]];
      }
    }
    assert ms[..|ms|] == ms;
  }

  ghost predicate ModeSoFar(batch: Batch, k: nat, mode: Option<string>)
    requires batch != [] && k <= |batch|
  {
    var own := batch[|batch| - 1].chatMode;
    if own.Some? then mode == own
    else if mode.None? then forall i :: 0 <= i < k ==> batch[i].chatMode.None?
    else exists i :: 0 <= i < k && FirstKnownMode(batch, i, mode)
  }

  lemma ModeStep(batch: Batch, k: nat, mode: Option<string>)
    requires k < |batch| && ModeSoFar(batch, k, mode)
    ensures ModeSoFar(batch, k + 1, if mode.None? then batch[k].chatMode else mode)
  {
    if mode.None? && batch[k].chatMode.Some? && batch[|batch| - 1].chatMode.None? {
      assert FirstKnownMode(batch, k, batch[k].chatMode);
    }
  }

  lemma NothingUnited(own: seq<Mention>)
    ensures own == own + Firsts([], own) && Accounts([]) == {}
  {
  }

  /** The loop of the merge: mentions, flags and chat mode. */
  method Collect(batch: Batch)
    returns (mentions: seq<Mention>, mentionedAll: bool, mentionedBot: bool, chatMode: Option<string>)
    requires batch != []
    ensures mentionedAll <==> exists k :: 0 <= k < |batch| && batch[k].mentionedAll
    ensures mentionedBot <==> exists k :: 0 <= k < |batch| && batch[k].mentionedBot
    ensures MentionsUnited(batch, mentions) && ChatModeChosen(batch, chatMode)
  {
    hide Firsts, Accounts, FirstKnownMode;
    var last := batch[|batch| - 1];
    NothingUnited(last.mentions);
    mentions, chatMode := last.mentions, last.chatMode;
    mentionedAll, mentionedBot := false, false;
    var seen: set<string> := {};
    for k := 0 to |batch|
      invariant mentions == last.mentions + Firsts(AllMentions(batch[..k]), last.mentions)
      invariant seen == Accounts(AllMentions(batch[..k]))
      invariant mentionedAll <==> exists i :: 0 <= i < k && batch[i].mentionedAll
      invariant mentionedBot <==> exists i :: 0 <= i < k && batch[i].mentionedBot
      invariant ModeSoFar(batch, k, chatMode)
    {
      var m := batch[k];
      mentionedAll := mentionedAll || m.mentionedAll;
      mentionedBot := mentionedBot || m.mentionedBot;
      ModeStep(batch, k, chatMode);
      if chatMode.None? && m.chatMode.Some? {
        chatMode := m.chatMode;
      }
      assert batch[..k + 1][..k] == batch[..k];
      mentions, seen := AddMentions(m.mentions, mentions, seen, AllMentions(batch[..k]), last.mentions);
    }
    assert batch[..|batch|] == batch;
  }

  method MergeBatch(batch: Batch) returns (r: InboundMessage)
    requires batch != []
    ensures Merges(batch, r)
  {
    hide MentionsUnited, ChatModeChosen, AllResources, JoinedView;
    if |batch| == 1 {
      return batch[0];
    }
    var last := batch[|batch| - 1];
    var mentions, mentionedAll, mentionedBot, chatMode := Collect(batch);
    var text := JoinView(batch, ContentWords);
    var contentText := JoinView(batch, ContentText);
    var safeText := JoinView(batch, SafeText);
    var bodyText := JoinView(batch, BodyText);
    var resources := JoinResources(batch);
    r := last.(mentions := mentions,
               mentionedAll := mentionedAll || last.mentionedAll,
               mentionedBot := mentionedBot || last.mentionedBot,
               content := if last.content.Text? && text != "" then last.content.(text := text) else last.content,
               chatMode := chatMode, contentText := contentText, safeContentText := safeText,
               bodyText := bodyText, resources := resources, batchedSources := batch);
  }
}
