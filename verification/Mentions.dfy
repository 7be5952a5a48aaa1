/** What the chunker promises about mentions, read off the characters of the text.

    A mention is `<at`, then a blank, a slash or nothing, attributes, `>`, a name and `</at>`, the letters
    in either case. */
module Mentions {
  import opened AtSpans
  import opened Chunker

  /** `<at`, in any case. */
  predicate Opens(s: string) {
    |s| == 3 && s[0] == '<' && (s[1] == 'a' || s[1] == 'A') && (s[2] == 't' || s[2] == 'T')
  }

  /** `</at>`, in any case. */
  predicate Closes(s: string) {
    |s| == 5 && s[0] == '<' && s[1] == '/' && (s[2] == 'a' || s[2] == 'A') && (s[3] == 't' || s[3] == 'T') && s[4] == '>'
  }

  /** The characters that count as blanks, ASCII first. */
  const BLANKS := "\U{0009}\U{000A}\U{000B}\U{000C}\U{000D}\U{001C}\U{001D}\U{001E}\U{001F} "
    + "\U{0085}\U{00A0}\U{1680}\U{2000}\U{2001}\U{2002}\U{2003}\U{2004}\U{2005}\U{2006}\U{2007}\U{2008}\U{2009}\U{200A}"
    + "\U{2028}\U{2029}\U{202F}\U{205F}\U{3000}"

  /** What may stand between `<at` and the attributes. */
  predicate Separates(sep: string, attrs: string) {
    if sep == "" then attrs == "" else |sep| == 1 && (sep[0] in BLANKS || sep[0] == '/')
  }

  lemma BlankIff(c: char)
    ensures IsSpace(c) <==> c in BLANKS
  {
    BlankAt(c);
  }

  /** Where each blank stands in the list. */
  lemma BlankAt(c: char)
    ensures IsSpace(c) ==> exists k :: 0 <= k < |BLANKS| && BLANKS[k] == c
    ensures forall k :: 0 <= k < |BLANKS| ==> IsSpace(BLANKS[k])
  {
    var n := c as int;
    if IsSpace(c) {
      var k := if n <= 13 then n - 9 else if n <= 32 then n - 23 else if n == 0x85 then 10 else if n == 0xA0 then 11
        else if n == 0x1680 then 12 else if n <= 0x200A then n - 0x2000 + 13 else if n == 0x2028 then 24
        else if n == 0x2029 then 25 else if n == 0x202F then 26 else if n == 0x205F then 27 else 28;
      assert BLANKS[k] == c;
    }
  }

  function Mention(open: string, sep: string, attrs: string, body: string, close: string): string {
    open + (sep + attrs + ">" + body) + close
  }

  // ---- lower-casing keeps a mention recognisable ---------------------------------------------------

  lemma LowerOne(c: char)
    ensures Lower([c]) == LowerChar(c)
  {
    assert [c][1..] == "";
    LowerHead([c]);
    LowerHead("");
  }

  lemma LowerOpen(open: string)
    requires Opens(open)
    ensures Lower(open) == "<at" && FoldText(open) == "<at"
  {
    hide Lower;
    LowerIsFold(open);
    assert FoldText(open) == "<at";
  }

  lemma LowerClose(close: string)
    requires Closes(close)
    ensures Lower(close) == "</at>" && FoldText(close) == "</at>"
  {
    hide Lower;
    LowerIsFold(close);
    assert FoldText(close) == "</at>";
  }

  /** Lower-casing makes no `<`. */
  lemma {:induction false} LowerAddsNoOpening(s: string)
    requires '<' !in s
    ensures '<' !in Lower(s)
  {
    LowerHead(s);
    if s != "" {
      assert s == [s[0]] + s[1..];
      LowerAddsNoOpening(s[1..]);
    }
  }

  /** The first match of a pattern, behind a part without its first character. */
  lemma FindsBehind(a: string, mid: string, pat: string, rest: string, from: nat)
    requires pat != "" && pat[0] !in mid && |a| <= from <= |a| + |mid|
    ensures Find(a + mid + (pat + rest), pat, from) == |a| + |mid|
  {
    hide Find, Occurs;
    var s, x := a + mid + (pat + rest), |a| + |mid|;
    OccursAt(s, pat, x);
    forall k: nat | from <= k < x
      ensures !Occurs(s, pat, k)
    {
      assert s[k] == mid[k - |a|];
      NoMatch(s, pat, k, 0);
    }
  }

  lemma SeparatorIsPlain(sep: string, attrs: string)
    requires Separates(sep, attrs)
    ensures '>' !in sep && '<' !in sep
  {
    if sep != "" {
      BlankIff(sep[0]);
      hide BLANKS;
      assert sep == [sep[0]];
    }
  }

  lemma SeparatorIsBoundary(p: string, open: string, sep: string, attrs: string, rest: string)
    requires Opens(open) && Separates(sep, attrs)
    ensures Boundary(p + open + (sep + attrs) + (">" + rest), |p| + 3)
  {
    LowerOpen(open);
    if sep != "" {
      BlankIff(sep[0]);
    }
    hide IsSpace, BLANKS;
    var text := p + open + (sep + attrs) + (">" + rest);
    assert text[|p| + 3] == if sep == "" then '>' else sep[0];
  }

  /** A tag where the characters say so, whatever stands before and behind it. */
  lemma MentionIsTag(p: string, open: string, sep: string, attrs: string, body: string, close: string, q: string)
    requires Opens(open) && Separates(sep, attrs) && '>' !in attrs && '<' !in body && Closes(close)
    ensures TagEnd(p + Mention(open, sep, attrs, body, close) + q, |p|) == |p| + |Mention(open, sep, attrs, body, close)|
  {
    hide Find, Lower, Boundary, BLANKS;
    var text := p + Mention(open, sep, attrs, body, close) + q;
    LowerOpen(open);
    LowerClose(close);
    SeparatorIsPlain(sep, attrs);
    assert '>' !in sep + attrs;
    assert text == (p + open) + (sep + attrs) + (">" + (body + close + q));
    assert (p + open) + (sep + attrs) == p + open + (sep + attrs);
    SeparatorIsBoundary(p, open, sep, attrs, body + close + q);
    FindsBehind(p + open, sep + attrs, ">", body + close + q, |p| + 3);
    var head := p + open + (sep + attrs) + ">";
    FoldMention(p, open, head, body, close, q);
    assert text == head + body + (close + q);
    FindsBehind(FoldText(head), FoldText(body), "</at>", FoldText(q), |head|);
  }

  lemma FoldMention(p: string, open: string, head: string, body: string, close: string, q: string)
    requires Opens(open) && Closes(close) && p + open <= head && '<' !in body
    ensures var low := FoldText(head + body + (close + q));
      && low == FoldText(head) + FoldText(body) + ("</at>" + FoldText(q)) && '<' !in FoldText(body)
      && Occurs(low, "<at", |p|)
  {
    LowerOpen(open);
    LowerClose(close);
    LowerIsFold(open);
    LowerIsFold(close);
    var text := head + body + (close + q);
    assert FoldText(text) == FoldText(head) + FoldText(body) + (FoldText(close) + FoldText(q));
    assert text[|p|..|p| + 3] == head[|p|..|p| + 3] == open;
    assert FoldText(text)[|p|..|p| + 3] == FoldText(open);
  }

  // ---- the scan finds it -----------------------------------------------------------------------------

  /** The first span starts with the mention and reaches at least to its end; the others start behind. */
  ghost predicate Covered(spans: seq<Span>, start: nat, end: nat) {
    && spans != [] && spans[0].start == start < end <= spans[0].end
    && forall k :: 0 < k < |spans| ==> spans[0].end <= spans[k].start < spans[k].end
  }

  lemma FirstRound(p: string, open: string, sep: string, attrs: string, body: string, close: string, q: string)
    requires '<' !in p && LengthKept(p) && Opens(open) && Separates(sep, attrs) && Closes(close)
    requires '<' !in attrs && '>' !in attrs && '<' !in body
    ensures var tag := Mention(open, sep, attrs, body, close);
      var text := p + tag + q;
      var r := RoundAt(text, Lower(text), 0);
      r.Take? && r.span.start == |p| && |p| + |tag| <= r.span.end
  {
    hide Find, Lower, Boundary, Opens, Closes, Separates, BLANKS;
    SeparatorIsPlain(sep, attrs);
    var mid, tail := sep + attrs + ">" + body, close + q;
    var text := p + Mention(open, sep, attrs, body, close) + q;
    LowerOpen(open);
    LowerClose(close);
    LowerAddsNoOpening(p);
    LowerAddsNoOpening(mid);
    LowerParts(p, open, mid, close, q);
    FindsBehind("", Lower(p), "<at", Lower(mid) + "</at>" + Lower(q), 0);
    LowerIsFold(p);
    assert Lower(text) == "" + Lower(p) + ("<at" + (Lower(mid) + "</at>" + Lower(q)));
    assert text == (p + open) + (sep + attrs) + (">" + (body + close + q));
    assert (p + open) + (sep + attrs) == p + open + (sep + attrs);
    SeparatorIsBoundary(p, open, sep, attrs, body + close + q);
    assert '>' !in sep + attrs;
    FindsBehind(p + open, sep + attrs, ">", body + close + q, |p| + 3);
    var gt := |p| + 3 + |sep + attrs|;
    assert Find(text, ">", |p| + 3) == gt;
    FindsBehind(Lower(p) + "<at", Lower(mid), "</at>", Lower(q), gt + 1);
    assert Lower(text) == (Lower(p) + "<at") + Lower(mid) + ("</at>" + Lower(q));
  }

  lemma LowerParts(p: string, open: string, mid: string, close: string, q: string)
    requires Opens(open) && Closes(close)
    ensures Lower(p + (open + mid + close) + q) == Lower(p) + ("<at" + (Lower(mid) + "</at>" + Lower(q)))
  {
    hide Lower;
    LowerOpen(open);
    LowerClose(close);
    LowerConcat(open, mid);
    LowerConcat(open + mid, close);
    LowerConcat(p, open + mid + close);
    LowerConcat(p + (open + mid + close), q);
  }

  lemma ScanCovers(p: string, open: string, sep: string, attrs: string, body: string, close: string, q: string)
    requires '<' !in p && LengthKept(p) && Opens(open) && Separates(sep, attrs) && Closes(close)
    requires '<' !in attrs && '>' !in attrs && '<' !in body
    ensures var tag := Mention(open, sep, attrs, body, close);
      var text := p + tag + q;
      Covered(Scan(text, Lower(text), 0), |p|, |p| + |tag|)
  {
    hide RoundAt, Lower, Opens, Closes, Separates;
    var text := p + Mention(open, sep, attrs, body, close) + q;
    FirstRound(p, open, sep, attrs, body, close, q);
    var span := RoundAt(text, Lower(text), 0).span;
    ScanFollows(text, Lower(text), span.end);
    var rest := Scan(text, Lower(text), span.end);
    assert Scan(text, Lower(text), 0) == [span] + rest;
    assert forall k :: 0 <= k < |rest| ==> rest[k] in rest;
  }

  // ---- the chunker keeps it --------------------------------------------------------------------------

  lemma NoOpeningIn(text: string, pat: string, at: nat)
    requires Occurs(text, pat, at)
    ensures forall x :: at <= x < at + |pat| ==> text[x] == pat[x - at]
    ensures '<' !in pat ==> forall x :: at <= x < at + |pat| ==> text[x] != '<'
  {
    forall x | at <= x < at + |pat|
      ensures text[x] == pat[x - at]
    {
      assert text[at..at + |pat|][x - at] == text[x];
    }
  }

  /** A cut of a piece that starts at or before the mention does not fall inside it. */
  lemma CutSpares(text: string, limit: nat, delim: string, spans: seq<Span>, i: nat, start: nat, end: nat)
    requires 0 < limit && i + limit < |text| && Covered(spans, start, end) && '<' !in delim
    requires i <= start && end <= |text| && text[start] == '<'
    ensures var p := Cut(text, limit, delim, spans, i);
      p.next <= start || end <= p.end
  {
    hide RFind, ProtectCut;
    var idx := if delim == "" then -1 else RFind(text, delim, i, i + limit);
    var wish: nat := if idx <= i then i + limit else idx;
    CutLands(text, wish, spans, i, start, end);
    if idx > i {
      NoOpeningIn(text, delim, idx);
    }
  }

  lemma CutLands(text: string, wish: nat, spans: seq<Span>, i: nat, start: nat, end: nat)
    requires Covered(spans, start, end) && i <= start && end <= |text| && i < wish <= |text|
    ensures var c := ProtectCut(wish, i, |text|, spans);
      c <= start || end <= c
  {
    hide ProtectCut;
    if Inside(wish, spans) {
      var c := ProtectCut(wish, i, |text|, spans);
      var k :| 0 <= k < |spans| && Moved(wish, i, |text|, spans[k], c);
    } else {
      assert !(spans[0].start < wish < spans[0].end);
    }
  }

  lemma {:induction false} PieceHolds(text: string, limit: nat, delim: string, spans: seq<Span>, i: nat, start: nat, end: nat)
    requires 0 < limit && Covered(spans, start, end) && '<' !in delim
    requires i <= start && end <= |text| && text[start] == '<'
    ensures Holds(Pieces(text, limit, delim, spans, i), Span(start, end))
    decreases |text| - i
  {
    hide Cut, Covered;
    assert start < end by { CoveredOrder(spans, start, end); }
    var ps := Pieces(text, limit, delim, spans, i);
    if |text| - i <= limit {
      assert ps[0] == Piece(i, |text|, |text|);
    } else {
      var p := Cut(text, limit, delim, spans, i);
      CutSpares(text, limit, delim, spans, i, start, end);
      if p.next <= start {
        var rest := Pieces(text, limit, delim, spans, p.next);
        PieceHolds(text, limit, delim, spans, p.next, start, end);
        var k :| 0 <= k < |rest| && rest[k].start <= start && end <= rest[k].end;
        assert ps[k + 1] == rest[k];
      } else {
        assert ps[0] == p;
      }
    }
  }

  lemma CoveredOrder(spans: seq<Span>, start: nat, end: nat)
    requires Covered(spans, start, end)
    ensures start < end
  {
  }

  /** No mention is split: for every limit and every mode, the first mention of a text lies whole in one
      piece. Only what stands before it has to keep its length when lower-cased. */
  lemma MentionIsWhole(p: string, open: string, sep: string, attrs: string, body: string, close: string, q: string, limit: nat, mode: string)
    requires Opens(open) && Separates(sep, attrs) && Closes(close)
    requires '<' !in p && '\U{0130}' !in p && '<' !in attrs && '>' !in attrs && '<' !in body && 0 < limit
    ensures var tag := open + (sep + attrs + ">" + body) + close;
      exists k :: 0 <= k < |PiecesOf(p + tag + q, limit, mode)| &&
        var piece := PiecesOf(p + tag + q, limit, mode)[k];
        piece.start <= |p| && |p| + |tag| <= piece.end
  {
    hide Pieces, Scan, Lower;
    var tag := Mention(open, sep, attrs, body, close);
    var text := p + tag + q;
    ScanCovers(p, open, sep, attrs, body, close, q);
    assert text[|p|] == open[0] == '<';
    var spans := Scan(text, Lower(text), 0);
    PieceHolds(text, limit, Delimiter(mode), spans, 0, |p|, |p| + |tag|);
    var ps := PiecesOf(text, limit, mode);
    assert ps == Pieces(text, limit, Delimiter(mode), spans, 0);
    var k :| 0 <= k < |ps| && ps[k].start <= |p| && |p| + |tag| <= ps[k].end;
  }

  /** The same among other tags and behind any text: a mention is whole if lower-casing moves nothing up to
      the end of the last tag. */
  lemma MentionAmongTagsIsWhole(p: string, open: string, sep: string, attrs: string, body: string, close: string, q: string, limit: nat, mode: string)
    requires Opens(open) && Separates(sep, attrs) && Closes(close)
    requires '<' !in attrs && '>' !in attrs && '<' !in body && 0 < limit
    requires '\U{0130}' !in p + (open + (sep + attrs + ">" + body) + close) + q
    ensures var tag := open + (sep + attrs + ">" + body) + close;
      exists k :: 0 <= k < |PiecesOf(p + tag + q, limit, mode)| &&
        var piece := PiecesOf(p + tag + q, limit, mode)[k];
        piece.start <= |p| && |p| + |tag| <= piece.end
  {
    hide Scan, Lower, TagEnd, Opens, Closes, Separates, PiecesOf;
    var tag := Mention(open, sep, attrs, body, close);
    var text := p + tag + q;
    MentionIsTag(p, open, sep, attrs, body, close, q);
    var ps := PiecesOf(text, limit, mode);
    assert TagWhole(text, ps, |p|) by { CleanTagWhole(text, limit, mode, |p|); }
    var k, a: nat :| 0 <= k < |ps| && ps[k].start <= a <= |p| < TagEnd(text, a) <= ps[k].end;
    CoveringMention(p, open, sep, attrs, body, close, q, a);
  }

  lemma CleanTagWhole(text: string, limit: nat, mode: string, s: nat)
    requires '\U{0130}' !in text && 0 < limit && TagEnd(text, s) != -1
    ensures TagWhole(text, PiecesOf(text, limit, mode), s)
  {
    hide Pieces, Scan, Lower, TagEnd, LastTagEnd, TagWhole;
    assert LengthKept(text[..LastTagEnd(text)]) by {
      assert forall c :: c in text[..LastTagEnd(text)] ==> c in text;
    }
    TagsWhole(text, limit, Delimiter(mode));
  }

  lemma CoveringMention(p: string, open: string, sep: string, attrs: string, body: string, close: string, q: string, a: nat)
    requires Opens(open) && Closes(close) && Separates(sep, attrs) && '<' !in attrs && '<' !in body
    requires var text := p + Mention(open, sep, attrs, body, close) + q; a <= |p| < TagEnd(text, a)
    ensures var text := p + Mention(open, sep, attrs, body, close) + q;
      |p| + |Mention(open, sep, attrs, body, close)| <= TagEnd(text, a)
  {
    hide TagEnd, Lower;
    var mid, tag := sep + attrs + ">" + body, Mention(open, sep, attrs, body, close);
    var text, s, e := p + tag + q, |p|, |p| + |tag|;
    LowerOpen(open);
    LowerClose(close);
    assert '<' !in mid;
    assert text == (p + open) + mid + (close + q);
    forall k | s < k < e - 5
      ensures text[k] != '<'
    {
      assert k < s + 3 ==> text[k] == open[k - s];
      assert k >= s + 3 ==> text[k] == mid[k - s - 3];
    }
    forall k: nat | s <= k < e - 5
      ensures !Occurs(FoldText(text), "</at>", k)
    {
      assert k == s ==> FoldText(text)[k + 1] == Fold(open[1]) != '/';
      NoMatch(FoldText(text), "</at>", k, if k == s then 1 else 0);
    }
    CoveringTagIsLong(text, a, s, e);
  }

  /** A tag that covers the opener of a mention covers the mention. */
  lemma CoveringTagIsLong(text: string, a: nat, s: nat, e: nat)
    requires a <= s < TagEnd(text, a) && s < e <= |text| && text[s] == '<'
    requires forall k :: s < k < e - 5 ==> text[k] != '<'
    requires forall k: nat :: s < k < e && Occurs(FoldText(text), "</at>", k) ==> k >= e - 5
    requires !Occurs(FoldText(text), "</at>", s)
    ensures e <= TagEnd(text, a)
  {
    hide Find;
    var c := TagEnd(text, a) - 5;
    NoOpeningIn(FoldText(text), "</at>", c);
    assert FoldText(text)[s] == '<';
    assert forall x :: c < x < c + 5 ==> FoldText(text)[x] != '<';
  }

  // ---- what is no tag --------------------------------------------------------------------------------

  /** `<at` that anything else follows opens nothing: it is a word, not a tag. */
  lemma WordIsNoTag(text: string, j: nat)
    requires '\U{0130}' !in text && j + 3 < |text|
    requires text[j + 3] !in BLANKS && text[j + 3] != '>' && text[j + 3] != '/'
    ensures forall span :: span in Scan(text, Lower(text), 0) ==> span.start != j
  {
    BlankIff(text[j + 3]);
    hide Find, Scan, Lower, Tags;
    ScanIsTags(text);
    assert TagEnd(text, j) == -1;
    TagsOrderly(text, 0);
  }

  /** A span the scan reports looks like a tag. */
  lemma SpanLooksLikeTag(text: string, span: Span)
    requires '\U{0130}' !in text && span in Scan(text, Lower(text), 0)
    ensures span.start + 9 <= span.end <= |text|
    ensures Opens(text[span.start..span.start + 3]) && Closes(text[span.end - 5..span.end])
    ensures exists k :: span.start + 3 <= k < span.end - 5 && text[k] == '>'
  {
    hide Scan, Lower, Tags, TagEnd, Opens, Closes, Orderly;
    ScanIsTags(text);
    TagsOrderly(text, 0);
    var k :| 0 <= k < |Tags(text, 0)| && Tags(text, 0)[k] == span;
    TagLooksLikeTag(text, span.start);
  }

  lemma TagLooksLikeTag(text: string, j: nat)
    requires TagEnd(text, j) != -1
    ensures j + 9 <= TagEnd(text, j) <= |text|
    ensures Opens(text[j..j + 3]) && Closes(text[TagEnd(text, j) - 5..TagEnd(text, j)])
    ensures exists k :: j + 3 <= k < TagEnd(text, j) - 5 && text[k] == '>'
  {
    hide Find, Boundary, Opens, Closes, FoldText;
    var e, gt := TagEnd(text, j), Find(text, ">", j + 3);
    FoldedOpen(text, j);
    FoldedClose(text, e - 5);
    MatchChars(text, ">", gt);
    assert text[gt + 0] == ">"[0];
  }

  lemma FoldedOpen(text: string, j: nat)
    requires Occurs(FoldText(text), "<at", j)
    ensures Opens(text[j..j + 3])
  {
    MatchChars(FoldText(text), "<at", j);
    var open, low := text[j..j + 3], FoldText(text);
    assert low[j + 0] == "<at"[0] && low[j + 1] == "<at"[1] && low[j + 2] == "<at"[2];
    assert open[0] == text[j] && open[1] == text[j + 1] && open[2] == text[j + 2];
  }

  lemma FoldedClose(text: string, j: nat)
    requires Occurs(FoldText(text), "</at>", j)
    ensures Closes(text[j..j + 5])
  {
    MatchChars(FoldText(text), "</at>", j);
    var close, low := text[j..j + 5], FoldText(text);
    assert low[j + 0] == "</at>"[0] && low[j + 1] == "</at>"[1] && low[j + 2] == "</at>"[2];
    assert low[j + 3] == "</at>"[3] && low[j + 4] == "</at>"[4];
    assert forall d :: 0 <= d < 5 ==> close[d] == text[j + d];
  }

  // ---- where plain text is broken --------------------------------------------------------------------

  lemma {:induction false} NoSpans(text: string, low: string, i: nat)
    requires '<' !in low
    ensures Scan(text, low, i) == []
  {
    hide Find;
    forall k: nat
      ensures !Occurs(low, "<at", k)
    {
      NoMatch(low, "<at", k, 0);
    }
  }

  /** The piece `text[i..end]` of plain text ends at the last separator of its window, which is left out,
      or at the full width when the window has none behind its first character. */
  ghost predicate BreaksAt(text: string, sep: string, i: nat, hi: nat, end: nat, next: nat) {
    if sep != "" && exists j :: SeparatorAt(text, sep, i, hi, j)
    then SeparatorAt(text, sep, i, hi, end) && next == end + |sep| && forall j :: SeparatorAt(text, sep, i, hi, j) ==> j <= end
    else end == hi && next == hi
  }

  predicate SeparatorAt(text: string, sep: string, i: nat, hi: nat, j: int) {
    i < j && j + |sep| <= hi <= |text| && text[j..j + |sep|] == sep
  }

  lemma PlainCut(text: string, limit: nat, sep: string, i: nat)
    requires 0 < limit && i + limit < |text|
    ensures var p := Cut(text, limit, sep, [], i); BreaksAt(text, sep, i, i + limit, p.end, p.next)
  {
    hide RFind, ProtectCut;
    var hi := i + limit;
    var p := Cut(text, limit, sep, [], i);
    var idx := if sep == "" then -1 else RFind(text, sep, i, hi);
    assert !Inside(hi, []) && (idx > i ==> !Inside(idx, []));
    if sep != "" {
      forall j | SeparatorAt(text, sep, i, hi, j)
        ensures j <= idx
      {
        assert Occurs(text, sep, j);
      }
      assert idx > i ==> SeparatorAt(text, sep, i, hi, idx);
    }
  }

  /** Plain text: in paragraph mode a piece ends at the last blank line of its window, in newline mode at the
      last line break, otherwise at the full width; the last piece is what is left. */
  lemma {:induction false} PlainBreaks(text: string, limit: nat, mode: string)
    requires '<' !in text && 0 < limit < |text|
    ensures var ps := PiecesOf(text, limit, mode);
      var sep := if mode == "paragraph" then "\n\n" else if mode == "newline" then "\n" else "";
      && ps != [] && ps[0].start == 0 && ps[|ps| - 1].end == |text| && |text| - ps[|ps| - 1].start <= limit
      && forall k :: 0 <= k < |ps| - 1 ==> |text| - ps[k].start > limit && BreaksAt(text, sep, ps[k].start, ps[k].start + limit, ps[k].end, ps[k + 1].start)
  {
    hide Pieces, Scan, Lower;
    LowerAddsNoOpening(text);
    NoSpans(text, Lower(text), 0);
    PlainPieces(text, limit, Delimiter(mode), 0);
  }

  lemma {:induction false} PlainPieces(text: string, limit: nat, sep: string, i: nat)
    requires 0 < limit && i < |text|
    ensures var ps := Pieces(text, limit, sep, [], i);
      && ps != [] && ps[0].start == i && ps[|ps| - 1].end == |text| && |text| - ps[|ps| - 1].start <= limit
      && forall k :: 0 <= k < |ps| - 1 ==> |text| - ps[k].start > limit && BreaksAt(text, sep, ps[k].start, ps[k].start + limit, ps[k].end, ps[k + 1].start)
    decreases |text| - i
  {
    hide Cut, BreaksAt;
    if |text| - i > limit {
      var p := Cut(text, limit, sep, [], i);
      PlainCut(text, limit, sep, i);
      CutEndsBefore(text, limit, sep, i);
      PlainPieces(text, limit, sep, p.next);
    }
  }

  lemma CutEndsBefore(text: string, limit: nat, sep: string, i: nat)
    requires 0 < limit && i + limit < |text|
    ensures Cut(text, limit, sep, [], i).next < |text|
  {
    PlainCut(text, limit, sep, i);
  }
}
