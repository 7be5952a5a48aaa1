/** Finding the complete `<at ...>...</at>` tags of a text, which the chunker must not cut.

    `Scan` is what the loop of `_at_spans` computes. `Tags` is the simple specification it should
    meet. The loop looks for openers and closers in `text.lower()` and for `>` in `text` itself, and
    uses one index for both. That is sound exactly when lower-casing moves no character, and the
    only character whose lower-case form is longer than one character is U+0130. */
module AtSpans {

  datatype Span = Span(start: nat, end: nat)

  // ---- library string functions ----------------------------------------------------------------

  /** The lower-case form of one character. Letters outside ASCII are kept as they are: none of them
      lower-cases to a character of a tag, and none but U+0130 changes length. */
  function LowerChar(c: char): string {
    if 'A' <= c <= 'Z' then [((c as int) + 32) as char]
    else if c == '\U{0130}' then "i\U{0307}"
    else [c]
  }

  function Lower(text: string): (r: string)
    ensures |r| >= |text|
  {
    if text == "" then "" else LowerChar(text[0]) + Lower(text[1..])
  }

  /** Lower-casing that keeps every index. */
  function Fold(c: char): char {
    if 'A' <= c <= 'Z' then ((c as int) + 32) as char else c
  }

  function FoldText(text: string): (r: string)
    ensures |r| == |text|
  {
    seq(|text|, k requires 0 <= k < |text| => Fold(text[k]))
  }

  predicate LengthKept(text: string) {
    '\U{0130}' !in text
  }

  predicate Occurs(s: string, pat: string, k: nat) {
    k + |pat| <= |s| && s[k..k + |pat|] == pat
  }

  lemma NoMatch(s: string, pat: string, k: nat, d: nat)
    requires d < |pat|
    requires k + d < |s| ==> s[k + d] != pat[d]
    ensures !Occurs(s, pat, k)
  {
    if k + |pat| <= |s| {
      assert s[k..k + |pat|][d] == s[k + d] != pat[d];
    }
  }

  lemma MatchChars(s: string, pat: string, k: nat)
    requires Occurs(s, pat, k)
    ensures forall d :: 0 <= d < |pat| ==> s[k + d] == pat[d]
  {
    forall d | 0 <= d < |pat|
      ensures s[k + d] == pat[d]
    {
      assert s[k..k + |pat|][d] == s[k + d];
    }
  }

  /** `s.find(pat, i)`. */
  function Find(s: string, pat: string, i: nat): (r: int)
    ensures r == -1 || (i <= r && Occurs(s, pat, r))
    ensures r == -1 ==> forall k: nat :: i <= k ==> !Occurs(s, pat, k)
    ensures r != -1 ==> forall k: nat :: i <= k < r ==> !Occurs(s, pat, k)
    decreases |s| - i
  {
    if i + |pat| > |s| then -1
    else if Occurs(s, pat, i) then i
    else Find(s, pat, i + 1)
  }

  /** `str.isspace` on one character. */
  predicate IsSpace(c: char) {
    var n := c as int;
    9 <= n <= 13 || 28 <= n <= 32 || n == 0x85 || n == 0xA0 || n == 0x1680 || 0x2000 <= n <= 0x200A
    || n == 0x2028 || n == 0x2029 || n == 0x202F || n == 0x205F || n == 0x3000
  }

  /** The character after `<at` may continue an opener; the end of the text may too. */
  predicate Boundary(text: string, k: nat) {
    k < |text| ==> IsSpace(text[k]) || text[k] == '>' || text[k] == '/'
  }

  // ---- the scan --------------------------------------------------------------------------------

  /** The outcome of one round of the loop. */
  datatype Round = Stop | Skip(next: nat) | Take(span: Span)

  function RoundAt(text: string, low: string, i: nat): (r: Round)
    ensures r.Skip? ==> i < r.next <= |low|
    ensures r.Take? ==> i <= r.span.start && r.span.start + 9 <= r.span.end <= |low|
    ensures r.Take? ==> Occurs(low, "</at>", r.span.end - 5)
  {
    var start := Find(low, "<at", i);
    if start == -1 then Stop
    else if !Boundary(text, start + 3) then Skip(start + 3)
    else
      var gt := Find(text, ">", start + 3);
      if gt == -1 then Stop
      else
        var close := Find(low, "</at>", gt + 1);
        if close == -1 then Skip(start + 3) else Take(Span(start, close + 5))
  }

  /** What the loop still has to append when it stands at `i`; `low` is the lower-cased text. */
  function Scan(text: string, low: string, i: nat): seq<Span>
    decreases |low| - i
  {
    match RoundAt(text, low, i)
    case Stop => []
    case Skip(next) => Scan(text, low, next)
    case Take(span) => [span] + Scan(text, low, span.end)
  }

  lemma ScanUnfold(spans: seq<Span>, text: string, low: string, i: nat)
    ensures spans + Scan(text, low, i) ==
      match RoundAt(text, low, i)
      case Stop => spans
      case Skip(next) => spans + Scan(text, low, next)
      case Take(span) => (spans + [span]) + Scan(text, low, span.end)
  {
    hide RoundAt, Find;
  }

  method FindSpans(text: string) returns (spans: seq<Span>)
    ensures spans == Scan(text, Lower(text), 0)
  {
    hide Scan, Find, Lower, Boundary, Occurs;
    spans := [];
    var i := 0;
    var lowered := Lower(text);
    while true
      invariant spans + Scan(text, lowered, i) == Scan(text, lowered, 0)
      decreases |lowered| - i
    {
      ScanUnfold(spans, text, lowered, i);
      var start := Find(lowered, "<at", i);
      if start == -1 {
        break;
      }
      if !Boundary(text, start + 3) {
        i := start + 3;
        continue;
      }
      var gt := Find(text, ">", start + 3);
      if gt == -1 {
        break;
      }
      var close := Find(lowered, "</at>", gt + 1);
      if close == -1 {
        i := start + 3;
        continue;
      }
      spans := spans + [Span(start, close + 5)];
      i := close + 5;
    }
  }

  // ---- the specification -----------------------------------------------------------------------

  predicate Opener(text: string, j: nat) {
    Occurs(FoldText(text), "<at", j) && Boundary(text, j + 3)
  }

  /** The end of the complete tag that opens at `j`, or -1: an opener, then the first `>`, then the
      first closer after it. */
  function TagEnd(text: string, j: nat): (e: int)
    ensures e == -1 || (j + 9 <= e <= |text| && Occurs(FoldText(text), "</at>", e - 5))
  {
    if !Opener(text, j) then -1
    else
      var gt := Find(text, ">", j + 3);
      if gt == -1 then -1
      else
        var close := Find(FoldText(text), "</at>", gt + 1);
        if close == -1 then -1 else close + 5
  }

  /** Repeatedly take the leftmost complete tag at or after `i`. */
  function Tags(text: string, i: nat): seq<Span>
    decreases |text| - i
  {
    if i >= |text| then []
    else if TagEnd(text, i) == -1 then Tags(text, i + 1)
    else [Span(i, TagEnd(text, i))] + Tags(text, TagEnd(text, i))
  }

  /** Sorted, disjoint, in bounds, each opening with `<`. */
  ghost predicate Orderly(text: string, spans: seq<Span>) {
    (forall k :: 0 <= k < |spans| ==>
      spans[k].start + 1 < spans[k].end <= |text| && text[spans[k].start] == '<')
    && forall k, l :: 0 <= k < l < |spans| ==> spans[k].end <= spans[l].start
  }

  lemma TagEndBounds(text: string, i: nat)
    requires TagEnd(text, i) != -1
    ensures i + 1 < TagEnd(text, i) <= |text| && text[i] == '<'
  {
    hide Find;
    assert FoldText(text)[i] == "<at"[0] by { MatchChars(FoldText(text), "<at", i); }
  }

  lemma OrderlyCons(text: string, sp: Span, rest: seq<Span>)
    requires sp.start + 1 < sp.end <= |text| && text[sp.start] == '<'
    requires Orderly(text, rest) && forall k :: 0 <= k < |rest| ==> sp.end <= rest[k].start
    ensures Orderly(text, [sp] + rest)
  {
  }

  lemma {:induction false} TagsOrderly(text: string, i: nat)
    ensures Orderly(text, Tags(text, i))
    ensures forall k :: 0 <= k < |Tags(text, i)| ==>
      var sp := Tags(text, i)[k]; i <= sp.start && TagEnd(text, sp.start) == sp.end
    decreases |text| - i
  {
    hide TagEnd, Orderly;
    if i < |text| {
      var e := TagEnd(text, i);
      if e == -1 {
        TagsOrderly(text, i + 1);
      } else {
        TagsOrderly(text, e);
        TagEndBounds(text, i);
        OrderlyCons(text, Span(i, e), Tags(text, e));
      }
    } else {
      assert Orderly(text, []) by { NoneOrderly(text); }
    }
  }

  lemma NoneOrderly(text: string)
    ensures Orderly(text, [])
  {
  }

  /** No complete tag is lost: wherever one opens, some reported span covers the opener. */
  lemma {:induction false} TagsCover(text: string, i: nat, j: nat)
    requires i <= j && TagEnd(text, j) != -1
    ensures exists k :: 0 <= k < |Tags(text, i)| && Tags(text, i)[k].start <= j < Tags(text, i)[k].end
    decreases |text| - i
  {
    hide TagEnd;
    var e := TagEnd(text, i);
    if e == -1 {
      TagsCover(text, i + 1, j);
    } else if j < e {
      assert Tags(text, i)[0] == Span(i, e);
    } else {
      TagsCover(text, e, j);
      var k :| 0 <= k < |Tags(text, e)| && Tags(text, e)[k].start <= j < Tags(text, e)[k].end;
      assert Tags(text, i)[k + 1] == Tags(text, e)[k];
    }
  }

  lemma {:induction false} TagsSkip(text: string, i: nat, j: nat)
    requires i <= j && forall k: nat :: i <= k < j ==> TagEnd(text, k) == -1
    ensures Tags(text, i) == Tags(text, j)
    decreases j - i
  {
    hide TagEnd;
    if i < j && i < |text| {
      TagsSkip(text, i + 1, j);
    }
  }

  lemma {:induction false} LowerIsFold(text: string)
    requires LengthKept(text)
    ensures Lower(text) == FoldText(text)
  {
    if text != "" {
      LowerIsFold(text[1..]);
      assert FoldText(text) == [Fold(text[0])] + FoldText(text[1..]);
    }
  }

  /** Two characters after an opener's `<` cannot themselves open a tag. */
  lemma OpenerStep(text: string, start: nat)
    requires Occurs(FoldText(text), "<at", start)
    ensures TagEnd(text, start + 1) == -1 && TagEnd(text, start + 2) == -1
  {
    MatchChars(FoldText(text), "<at", start);
    assert FoldText(text)[start + 1] == "<at"[1] && FoldText(text)[start + 2] == "<at"[2];
    NoMatch(FoldText(text), "<at", start + 1, 0);
    NoMatch(FoldText(text), "<at", start + 2, 0);
  }

  /** Once no `>` is left, no tag is. */
  lemma NothingWithoutGt(text: string, start: nat)
    requires Find(text, ">", start + 3) == -1
    ensures forall k: nat :: start <= k ==> TagEnd(text, k) == -1
  {
    forall k: nat | start <= k
      ensures TagEnd(text, k) == -1
    {
      assert Find(text, ">", k + 3) == -1;
    }
  }

  lemma RoundAtOpener(text: string, i: nat)
    ensures var start := Find(FoldText(text), "<at", i);
      && (forall k: nat :: i <= k && (start == -1 || k < start) ==> TagEnd(text, k) == -1)
      && match RoundAt(text, FoldText(text), i)
         case Stop => forall k: nat :: i <= k ==> TagEnd(text, k) == -1
         case Skip(next) => start != -1 && next == start + 3 && forall k: nat :: start <= k < next ==> TagEnd(text, k) == -1
         case Take(span) => start == span.start && TagEnd(text, start) == span.end
  {
    hide Find, FoldText;
    var start := Find(FoldText(text), "<at", i);
    if start != -1 {
      OpenerStep(text, start);
      if Find(text, ">", start + 3) == -1 {
        NothingWithoutGt(text, start);
      }
    }
  }

  /** One round of the loop passes over no complete tag. */
  lemma RoundIsTags(text: string, i: nat)
    ensures match RoundAt(text, FoldText(text), i)
      case Stop => Tags(text, i) == []
      case Skip(next) => Tags(text, i) == Tags(text, next)
      case Take(span) => Tags(text, i) == [span] + Tags(text, span.end)
  {
    hide Find, TagEnd, RoundAt, FoldText;
    var start := Find(FoldText(text), "<at", i);
    RoundAtOpener(text, i);
    TagsSkip(text, i, if start == -1 then i + |text| else start);
    match RoundAt(text, FoldText(text), i) {
      case Stop => TagsSkip(text, if start == -1 then i + |text| else start, i + |text|);
      case Skip(next) => TagsSkip(text, start, next);
      case Take(span) => assert span.start == start;
    }
  }

  lemma {:induction false} ScanIsTagsFrom(text: string, i: nat)
    ensures Scan(text, FoldText(text), i) == Tags(text, i)
    decreases |text| - i
  {
    hide Find, TagEnd, RoundAt;
    RoundIsTags(text, i);
    match RoundAt(text, FoldText(text), i) {
      case Stop =>
      case Skip(next) => ScanIsTagsFrom(text, next);
      case Take(span) => ScanIsTagsFrom(text, span.end);
    }
  }

  lemma ScanIsTags(text: string)
    requires LengthKept(text)
    ensures Scan(text, Lower(text), 0) == Tags(text, 0)
  {
    LowerIsFold(text);
    ScanIsTagsFrom(text, 0);
  }

  // ---- a shift behind the last tag is harmless ------------------------------------------------------

  /** Where the last complete tag ends, or 0. */
  function LastTagEnd(text: string): (e: nat)
    ensures e <= |text|
  {
    var tags := Tags(text, 0);
    if tags == [] then 0 else
      TagsOrderly(text, 0);
      tags[|tags| - 1].end
  }

  /** Up to `e` the two texts are the same. */
  ghost predicate Agree(a: string, b: string, e: nat) {
    e <= |a| && e <= |b| && a[..e] == b[..e]
  }

  lemma OccursAgrees(a: string, b: string, e: nat, pat: string, k: nat)
    requires Agree(a, b, e) && k + |pat| <= e
    ensures Occurs(a, pat, k) <==> Occurs(b, pat, k)
  {
    assert a[k..k + |pat|] == a[..e][k..k + |pat|] == b[k..k + |pat|];
  }

  lemma FindAgrees(a: string, b: string, e: nat, pat: string, i: nat)
    requires Agree(a, b, e)
    ensures var r := Find(b, pat, i); r != -1 && r + |pat| <= e ==> Find(a, pat, i) == r
  {
    hide Occurs, Agree;
    var r := Find(b, pat, i);
    if r != -1 && r + |pat| <= e {
      forall k: nat | k + |pat| <= e
        ensures Occurs(a, pat, k) <==> Occurs(b, pat, k)
      {
        OccursAgrees(a, b, e, pat, k);
      }
      var q := Find(a, pat, i);
      assert q != -1;
      assert q <= r;
    }
  }

  /** While a complete tag is still to come, a round does not see what is behind the last one. */
  lemma RoundAgrees(text: string, low: string, i: nat, s: nat, e: nat)
    requires Agree(low, FoldText(text), e) && i <= s && TagEnd(text, s) != -1 && TagEnd(text, s) <= e
    ensures RoundAt(text, low, i) == RoundAt(text, FoldText(text), i) && !RoundAt(text, low, i).Stop?
  {
    hide Find, FoldText, Occurs, Agree;
    var fold := FoldText(text);
    var start := Find(fold, "<at", i);
    assert start != -1 && start <= s;
    FindAgrees(low, fold, e, "<at", i);
    if Boundary(text, start + 3) {
      var gt, gts := Find(text, ">", start + 3), Find(text, ">", s + 3);
      assert gt != -1 && gt <= gts;
      var close := Find(fold, "</at>", gt + 1);
      assert close != -1 && close <= Find(fold, "</at>", gts + 1);
      FindAgrees(low, fold, e, "</at>", gt + 1);
    }
  }

  /** The complete tags from `i` on end at `e`. */
  ghost predicate TagsReach(text: string, i: nat, e: nat) {
    i <= e && var tags := Tags(text, i); if tags == [] then i == e else tags[|tags| - 1].end == e
  }

  /** One round on the way to `e`: it passes over no tag and does not step beyond the last one. */
  lemma RoundReaches(text: string, low: string, i: nat, e: nat)
    requires Agree(low, FoldText(text), e) && TagsReach(text, i, e) && i < e
    ensures match RoundAt(text, low, i)
      case Stop => false
      case Skip(next) => Tags(text, i) == Tags(text, next) && TagsReach(text, next, e)
      case Take(span) => Tags(text, i) == [span] + Tags(text, span.end) && TagsReach(text, span.end, e)
  {
    hide Find, TagEnd, RoundAt, FoldText, Agree, Tags, Orderly;
    var tags := Tags(text, i);
    TagsOrderly(text, i);
    LastTagIsLast(text, i);
    RoundAgrees(text, low, i, tags[0].start, e);
    RoundIsTags(text, i);
    match RoundAt(text, low, i) {
      case Skip(next) => TagsOrderly(text, next);
      case Take(span) => LastTagIsLast(text, i);
      case Stop =>
    }
  }

  lemma LastTagIsLast(text: string, i: nat)
    ensures forall k :: 0 <= k < |Tags(text, i)| ==> Tags(text, i)[k].end <= Tags(text, i)[|Tags(text, i)| - 1].end
  {
    hide Tags, TagEnd;
    TagsOrderly(text, i);
  }

  lemma {:induction false} ScanAgrees(text: string, low: string, i: nat, e: nat)
    requires Agree(low, FoldText(text), e) && TagsReach(text, i, e)
    ensures Scan(text, low, i) == Tags(text, i) + Scan(text, low, e)
    decreases |low| - i
  {
    hide RoundAt, FoldText, Agree, Tags, TagsReach;
    if i == e {
      NoTagsLeft(text, e);
    } else {
      ReachInOrder(text, i, e);
      RoundReaches(text, low, i, e);
      match RoundAt(text, low, i) {
        case Skip(next) => ScanAgrees(text, low, next, e);
        case Take(span) => ScanAgrees(text, low, span.end, e);
      }
    }
  }

  lemma ReachInOrder(text: string, i: nat, e: nat)
    requires TagsReach(text, i, e) && i != e
    ensures i < e
  {
  }

  lemma NoTagsLeft(text: string, e: nat)
    requires TagsReach(text, e, e)
    ensures Tags(text, e) == []
  {
    hide TagEnd;
    TagsOrderly(text, e);
  }

  lemma LowerAgrees(text: string, e: nat)
    requires e <= |text| && LengthKept(text[..e])
    ensures Agree(Lower(text), FoldText(text), e)
  {
    assert text == text[..e] + text[e..];
    LowerConcat(text[..e], text[e..]);
    LowerIsFold(text[..e]);
    assert FoldText(text)[..e] == FoldText(text[..e]);
  }

  /** If lower-casing moves nothing up to the end of the last tag, the scan finds the complete tags; what
      else it reports starts behind them. */
  lemma ScanStartsWithTags(text: string)
    requires LengthKept(text[..LastTagEnd(text)])
    ensures Scan(text, Lower(text), 0) == Tags(text, 0) + Scan(text, Lower(text), LastTagEnd(text))
  {
    hide Tags, Scan, Lower, FoldText;
    assert TagsReach(text, 0, LastTagEnd(text));
    LowerAgrees(text, LastTagEnd(text));
    ScanAgrees(text, Lower(text), 0, LastTagEnd(text));
  }

  lemma {:induction false} ScanFollows(text: string, low: string, i: nat)
    ensures forall span :: span in Scan(text, low, i) ==> i <= span.start < span.end
    decreases |low| - i
  {
    hide RoundAt;
    match RoundAt(text, low, i) {
      case Stop =>
      case Skip(next) => ScanFollows(text, low, next);
      case Take(span) => ScanFollows(text, low, span.end);
    }
  }

  // ---- lower-casing that shifts, and a tag to show it on ----------------------------------------

  function Growth(text: string): nat {
    |Lower(text)| - |text|
  }

  lemma LowerHead(text: string)
    ensures Lower("") == ""
    ensures text != "" ==> Lower(text) == LowerChar(text[0]) + Lower(text[1..])
  {
  }

  lemma {:induction false} LowerConcat(p: string, t: string)
    ensures Lower(p + t) == Lower(p) + Lower(t)
  {
    hide Lower, LowerChar;
    LowerHead(p);
    if p == "" {
      assert p + t == t;
    } else {
      LowerHead(p + t);
      LowerConcat(p[1..], t);
      assert (p + t)[1..] == p[1..] + t;
    }
  }

  lemma {:induction false} GrowthPositive(p: string)
    requires !LengthKept(p)
    ensures Growth(p) > 0
  {
    if p[0] != '\U{0130}' {
      GrowthPositive(p[1..]);
    }
  }

  /** One complete tag. */
  function Probe(width: nat): string {
    "<at>" + seq(width, _ => 'x') + "</at>"
  }

  /** The only closer that ends after the probe's opener is the one at the end of the text. */
  lemma ProbeCloser(p: string, width: nat, c: nat)
    requires |p| - 5 < c && Occurs(FoldText(p + Probe(width)), "</at>", c)
    ensures c == |p| + 4 + width
  {
    var q, low := |p|, FoldText(p + Probe(width));
    MatchChars(low, "</at>", c);
    assert low[c + 0] == '<';
    assert low[c + 1] == '/';
    assert low[c + 4] == '>';
    assert low[q] == '<' && low[q + 1] == 'a' && low[q + 2] == 't' && low[q + 3] == '>';
    assert forall k :: q + 4 <= k < q + 4 + width ==> low[k] == 'x';
  }

  lemma OccursAt(s: string, pat: string, k: nat)
    requires k + |pat| <= |s| && forall d :: 0 <= d < |pat| ==> s[k + d] == pat[d]
    ensures Occurs(s, pat, k)
  {
    assert s[k..k + |pat|] == pat;
  }

  lemma ProbeShape(p: string, width: nat)
    ensures var text, q, low := p + Probe(width), |p|, FoldText(p + Probe(width));
      Occurs(low, "<at", q) && Occurs(text, ">", q + 3) && Occurs(low, "</at>", q + 4 + width)
  {
    var text, q, low := p + Probe(width), |p|, FoldText(p + Probe(width));
    hide Occurs;
    OccursAt(low, "<at", q);
    OccursAt(text, ">", q + 3);
    OccursAt(low, "</at>", q + 4 + width);
  }

  lemma ProbeTag(p: string, width: nat)
    ensures TagEnd(p + Probe(width), |p|) == |p + Probe(width)|
  {
    hide Find, FoldText, Occurs;
    var text, q := p + Probe(width), |p|;
    ProbeShape(p, width);
    assert Boundary(text, q + 3);
    assert Find(text, ">", q + 3) == q + 3;
    var close := Find(FoldText(text), "</at>", q + 4);
    ProbeCloser(p, width, close);
  }
}
