/** Splitting outbound text into chunks without cutting an `<at>` tag. */
module Chunker {
  import opened AtSpans

  /** The delimiter of a mode; the empty string stands for "none". */
  function Delimiter(mode: string): string {
    if mode == "paragraph" then "\n\n" else if mode == "newline" then "\n" else ""
  }

  /** `text.rfind(pat, lo, hi)`. */
  function RFind(text: string, pat: string, lo: nat, hi: nat): (r: int)
    requires hi <= |text|
    ensures r == -1 || (lo <= r && r + |pat| <= hi && Occurs(text, pat, r))
    ensures forall k: nat :: lo <= k && r < k && k + |pat| <= hi ==> !Occurs(text, pat, k)
    decreases hi
  {
    if lo + |pat| > hi then -1
    else if Occurs(text, pat, hi - |pat|) then hi - |pat|
    else if hi == 0 then -1
    else RFind(text, pat, lo, hi - 1)
  }

  ghost predicate Inside(cut: nat, spans: seq<Span>) {
    exists k :: 0 <= k < |spans| && spans[k].start < cut < spans[k].end
  }

  /** `c` is the edge of the tag around `cut`: its start, unless the chunk itself starts there. */
  ghost predicate Moved(cut: nat, start: nat, n: nat, tag: Span, c: nat) {
    tag.start < cut < tag.end
    && c == if tag.start > start then tag.start else if tag.end <= n then tag.end else n
  }

  /** Moves a cut off the tag it would fall into. */
  function ProtectCut(cut: nat, start: nat, n: nat, spans: seq<Span>): (c: nat)
    requires start < cut <= n
    ensures start < c <= n
    ensures !Inside(cut, spans) ==> c == cut
    ensures Inside(cut, spans) ==> exists k :: 0 <= k < |spans| && Moved(cut, start, n, spans[k], c)
  {
    if spans == [] then cut
    else
      var s, e := spans[0].start, spans[0].end;
      if s < cut < e then
        assert Inside(cut, spans) && spans[0] == Span(s, e);
        if s > start then s else if e <= n then e else n
      else
        assert forall k :: 0 <= k < |spans| - 1 ==> spans[1..][k] == spans[k + 1];
        assert Inside(cut, spans) ==> Inside(cut, spans[1..]);
        ProtectCut(cut, start, n, spans[1..])
  }

  /** One chunk `text[start..end]`; the next one starts at `next`. */
  datatype Piece = Piece(start: nat, end: nat, next: nat)

  /** The piece cut off at `i` when the rest of the text is longer than `limit`. */
  function Cut(text: string, limit: nat, delim: string, spans: seq<Span>, i: nat): (p: Piece)
    requires 0 < limit && i + limit < |text|
    ensures p.start == i < p.end <= p.next <= |text|
    ensures p.next == p.end || (delim != "" && p.next == p.end + |delim| < |text| && Occurs(text, delim, p.end))
  {
    var idx := if delim == "" then -1 else RFind(text, delim, i, i + limit);
    if idx <= i then
      var cut := ProtectCut(i + limit, i, |text|, spans);
      Piece(i, cut, cut)
    else
      var cut := ProtectCut(idx, i, |text|, spans);
      if cut != idx then Piece(i, cut, cut) else Piece(i, idx, idx + |delim|)
  }

  /** The pieces of `text[i..]`. */
  function Pieces(text: string, limit: nat, delim: string, spans: seq<Span>, i: nat): seq<Piece>
    requires 0 < limit
    decreases |text| - i
  {
    if i >= |text| then []
    else if |text| - i <= limit then [Piece(i, |text|, |text|)]
    else
      var p := Cut(text, limit, delim, spans, i);
      [p] + Pieces(text, limit, delim, spans, p.next)
  }

  /** The pieces that `chunk_text` makes. */
  function PiecesOf(text: string, limit: nat, mode: string): seq<Piece>
    requires 0 < limit
  {
    Pieces(text, limit, Delimiter(mode), Scan(text, Lower(text), 0), 0)
  }

  function Texts(text: string, pieces: seq<Piece>): seq<string>
    requires forall p :: p in pieces ==> p.start <= p.end <= |text|
  {
    seq(|pieces|, k requires 0 <= k < |pieces| => text[pieces[k].start..pieces[k].end])
  }

  function NonEmpty(chunks: seq<string>): seq<string> {
    if chunks == [] then []
    else (if chunks[0] == "" then [] else [chunks[0]]) + NonEmpty(chunks[1..])
  }

  lemma {:induction false} NonEmptyKeepsAll(chunks: seq<string>)
    requires "" !in chunks
    ensures NonEmpty(chunks) == chunks
  {
    if chunks != [] {
      NonEmptyKeepsAll(chunks[1..]);
    }
  }

  // ---- properties of the pieces ----------------------------------------------------------------

  /** The pieces leave out nothing of `text[i..]` but one whole delimiter between some of them. */
  ghost predicate Layout(text: string, delim: string, pieces: seq<Piece>, i: nat) {
    && pieces != [] && pieces[0].start == i
    && pieces[|pieces| - 1].end == |text|
    && (forall k :: 0 <= k < |pieces| ==> pieces[k].start < pieces[k].end <= |text|)
    && forall k :: 0 < k < |pieces| ==>
      var gap := text[pieces[k - 1].end..];
      pieces[k].start == pieces[k - 1].end
      || (delim != "" && delim <= gap && pieces[k].start == pieces[k - 1].end + |delim|)
  }

  lemma LayoutCons(text: string, delim: string, p: Piece, rest: seq<Piece>)
    requires p.start < p.end <= p.next <= |text|
    requires p.next == p.end || (delim != "" && p.next == p.end + |delim| < |text| && Occurs(text, delim, p.end))
    requires if p.next == |text| then rest == [] else Layout(text, delim, rest, p.next)
    ensures Layout(text, delim, [p] + rest, p.start)
  {
    if p.next != p.end {
      assert delim == text[p.end..p.end + |delim|] == text[p.end..][..|delim|];
    }
  }

  /** Exact cover, and no chunk is empty. This holds whatever the spans are. */
  lemma {:induction false} PiecesCover(text: string, limit: nat, delim: string, spans: seq<Span>, i: nat)
    requires 0 < limit && i < |text|
    ensures Layout(text, delim, Pieces(text, limit, delim, spans, i), i)
    decreases |text| - i
  {
    hide Cut, Layout;
    if |text| - i > limit {
      var p := Cut(text, limit, delim, spans, i);
      if p.next < |text| {
        PiecesCover(text, limit, delim, spans, p.next);
      }
      LayoutCons(text, delim, p, Pieces(text, limit, delim, spans, p.next));
    } else {
      LayoutCons(text, delim, Piece(i, |text|, |text|), []);
      assert Pieces(text, limit, delim, spans, i) == [Piece(i, |text|, |text|)] + [];
    }
  }

  ghost predicate Holds(pieces: seq<Piece>, tag: Span) {
    exists k :: 0 <= k < |pieces| && pieces[k].start <= tag.start && tag.end <= pieces[k].end
  }

  /** The spans that count, and others that all start behind them. */
  ghost predicate Behind(text: string, good: seq<Span>, extra: seq<Span>, e: nat) {
    && Orderly(text, good)
    && (forall k :: 0 <= k < |good| ==> good[k].end <= e)
    && forall k :: 0 <= k < |extra| ==> e <= extra[k].start < extra[k].end
  }

  /** No tag is split: every span that counts and starts at or after `i` lies whole inside one piece. */
  lemma {:induction false} PiecesKeepTag(text: string, limit: nat, delim: string, good: seq<Span>, extra: seq<Span>, e: nat, i: nat, t: nat)
    requires 0 < limit && Behind(text, good, extra, e) && '<' !in delim && !Inside(i, good)
    requires t < |good| && i <= good[t].start
    ensures Holds(Pieces(text, limit, delim, good + extra, i), good[t])
    decreases |text| - i
  {
    var ps := Pieces(text, limit, delim, good + extra, i);
    if |text| - i <= limit {
      assert ps[0] == Piece(i, |text|, |text|);
    } else {
      var p := Cut(text, limit, delim, good + extra, i);
      CutAvoidsTags(text, limit, delim, good, extra, e, i);
      if good[t].end <= p.end {
        assert ps[0] == p;
      } else {
        var rest := Pieces(text, limit, delim, good + extra, p.next);
        PiecesKeepTag(text, limit, delim, good, extra, e, p.next, t);
        var k :| 0 <= k < |rest| && rest[k].start <= good[t].start && good[t].end <= rest[k].end;
        assert ps[k + 1] == rest[k];
      }
    }
  }

  lemma ProtectedCutIsOutside(cut: nat, start: nat, text: string, good: seq<Span>, extra: seq<Span>, e: nat)
    requires start < cut <= |text| && Behind(text, good, extra, e)
    ensures !Inside(ProtectCut(cut, start, |text|, good + extra), good)
  {
    hide ProtectCut;
    var spans, c := good + extra, ProtectCut(cut, start, |text|, good + extra);
    if Inside(cut, spans) {
      var k :| 0 <= k < |spans| && Moved(cut, start, |text|, spans[k], c);
      if k < |good| {
        assert spans[k] == good[k];
      } else {
        assert spans[k] == extra[k - |good|];
      }
    } else {
      assert forall k :: 0 <= k < |good| ==> spans[k] == good[k];
    }
  }

  /** A delimiter holds no `<`, so no tag starts in it. */
  lemma ConsumedTouchesNone(text: string, delim: string, good: seq<Span>, at: nat)
    requires Occurs(text, delim, at) && '<' !in delim && Orderly(text, good) && !Inside(at, good)
    ensures !Inside(at + |delim|, good)
    ensures forall k :: 0 <= k < |good| ==>
      good[k].end <= at || at + |delim| <= good[k].start || good[k].start < at
  {
    MatchChars(text, delim, at);
    forall x | at <= x < at + |delim|
      ensures text[x] != '<'
    {
      assert text[at + (x - at)] == delim[x - at];
    }
  }

  /** However a piece is cut, it ends outside every tag. */
  lemma CutEndsOutside(text: string, limit: nat, delim: string, good: seq<Span>, extra: seq<Span>, e: nat, i: nat)
    requires 0 < limit && i + limit < |text| && Behind(text, good, extra, e)
    ensures !Inside(Cut(text, limit, delim, good + extra, i).end, good)
  {
    hide RFind, ProtectCut, Inside, Behind, Occurs;
    ProtectedCutIsOutside(i + limit, i, text, good, extra, e);
    var idx := if delim == "" then -1 else RFind(text, delim, i, i + limit);
    if idx > i {
      ProtectedCutIsOutside(idx, i, text, good, extra, e);
    }
  }

  /** The next chunk starts outside every tag, and what is consumed in between touches none. */
  lemma CutAvoidsTags(text: string, limit: nat, delim: string, good: seq<Span>, extra: seq<Span>, e: nat, i: nat)
    requires 0 < limit && i + limit < |text|
    requires Behind(text, good, extra, e) && '<' !in delim
    ensures var p := Cut(text, limit, delim, good + extra, i);
      && !Inside(p.end, good) && !Inside(p.next, good)
      && forall k :: 0 <= k < |good| ==> good[k].end <= p.end || p.next <= good[k].start || good[k].start < p.end
  {
    hide Cut, Orderly, Occurs;
    var p := Cut(text, limit, delim, good + extra, i);
    CutEndsOutside(text, limit, delim, good, extra, e, i);
    if p.next != p.end {
      ConsumedTouchesNone(text, delim, good, p.end);
    }
  }

  /** Each chunk has at most `limit` characters or is exactly one complete tag. */
  lemma {:induction false} PiecesFit(text: string, limit: nat, delim: string, spans: seq<Span>, i: nat)
    requires 0 < limit && Orderly(text, spans) && '<' !in delim && !Inside(i, spans)
    ensures forall p :: p in Pieces(text, limit, delim, spans, i) ==>
      p.end - p.start <= limit || Span(p.start, p.end) in spans
    decreases |text| - i
  {
    if i < |text| && |text| - i > limit {
      var p := Cut(text, limit, delim, spans, i);
      CutFits(text, limit, delim, spans, i);
      assert spans + [] == spans;
      CutAvoidsTags(text, limit, delim, spans, [], |text|, i);
      PiecesFit(text, limit, delim, spans, p.next);
    }
  }

  lemma CutFits(text: string, limit: nat, delim: string, spans: seq<Span>, i: nat)
    requires 0 < limit && i + limit < |text| && Orderly(text, spans) && !Inside(i, spans)
    ensures var p := Cut(text, limit, delim, spans, i);
      p.end - p.start <= limit || Span(p.start, p.end) in spans
  {
    hide RFind, ProtectCut;
  }

  /** No delimiter starts after `k` inside the window that ends at `hi`. */
  ghost predicate NoneAfter(text: string, delim: string, k: int, hi: nat) {
    forall j: nat :: k < j && j + |delim| <= hi ==> !Occurs(text, delim, j)
  }

  /** Where the break falls, in the window `text[i..i + limit]`. The preferred place is the last
      delimiter, or the full width when the window holds none except perhaps at its very start.
      The break is there unless that would cut a tag, and then it is the edge of that tag. */
  lemma CutChoice(text: string, limit: nat, delim: string, spans: seq<Span>, i: nat) returns (wish: nat)
    requires 0 < limit && i + limit < |text|
    ensures var hi := i + limit;
      || (wish == hi && (delim == "" || NoneAfter(text, delim, i, hi)))
      || (delim != "" && i < wish && wish + |delim| <= hi && Occurs(text, delim, wish)
          && NoneAfter(text, delim, wish, hi))
    ensures var p := Cut(text, limit, delim, spans, i);
      if !Inside(wish, spans) then p == Piece(i, wish, if wish == i + limit then wish else wish + |delim|)
      else p.next == p.end && exists k :: 0 <= k < |spans| && Moved(wish, i, |text|, spans[k], p.end)
  {
    hide ProtectCut;
    var idx := if delim == "" then -1 else RFind(text, delim, i, i + limit);
    wish := if idx <= i then i + limit else idx;
  }

  // ---- the methods -----------------------------------------------------------------------------

  lemma TextsAppend(text: string, pieces: seq<Piece>, p: Piece)
    requires forall q :: q in pieces + [p] ==> q.start <= q.end <= |text|
    ensures (forall q :: q in pieces ==> q.start <= q.end <= |text|) && p.start <= p.end <= |text|
    ensures Texts(text, pieces + [p]) == Texts(text, pieces) + [text[p.start..p.end]]
  {
    assert p in pieces + [p];
    assert forall q :: q in pieces ==> q in pieces + [p];
  }

  lemma {:induction false} PiecesInBounds(text: string, limit: nat, delim: string, spans: seq<Span>, i: nat)
    requires 0 < limit
    ensures forall p :: p in Pieces(text, limit, delim, spans, i) ==> p.start < p.end <= |text|
    decreases |text| - i
  {
    if i + limit < |text| {
      hide Cut;
      var p := Cut(text, limit, delim, spans, i);
      PiecesInBounds(text, limit, delim, spans, p.next);
    }
  }

  lemma PiecesUnfold(done: seq<Piece>, text: string, limit: nat, delim: string, spans: seq<Span>, i: nat)
    requires 0 < limit
    ensures done + Pieces(text, limit, delim, spans, i) ==
      if i >= |text| then done
      else if |text| - i <= limit then done + [Piece(i, |text|, |text|)]
      else
        var p := Cut(text, limit, delim, spans, i);
        (done + [p]) + Pieces(text, limit, delim, spans, p.next)
  {
    hide Cut;
  }

  method ChunkByDelim(text: string, limit: nat, delim: string, spans: seq<Span>) returns (r: seq<string>)
    requires 0 < limit
    ensures forall p :: p in Pieces(text, limit, delim, spans, 0) ==> p.start < p.end <= |text|
    ensures r == Texts(text, Pieces(text, limit, delim, spans, 0))
  {
    hide RFind, ProtectCut, Texts, NonEmpty, Pieces, Occurs, Inside;
    PiecesInBounds(text, limit, delim, spans, 0);
    var chunks: seq<string> := [];
    var i := 0;
    var n := |text|;
    ghost var all := Pieces(text, limit, delim, spans, 0);
    ghost var done: seq<Piece> := [];
    assert chunks == Texts(text, done) by { NoTexts(text); }
    while i < n
      invariant i <= n
      invariant all == done + Pieces(text, limit, delim, spans, i)
      invariant forall p :: p in done ==> p.start < p.end <= |text|
      invariant chunks == Texts(text, done)
    {
      PiecesUnfold(done, text, limit, delim, spans, i);
      if n - i <= limit {
        TextsAppend(text, done, Piece(i, n, n));
        assert text[i..] == text[i..n];
        done := done + [Piece(i, n, n)];
        chunks := chunks + [text[i..]];
        i := n;
        break;
      }
      var idx := if delim != "" then RFind(text, delim, i, i + limit) else -1;
      ghost var p := Cut(text, limit, delim, spans, i);
      TextsAppend(text, done, p);
      if idx <= i {
        var cut := ProtectCut(i + limit, i, n, spans);
        chunks := chunks + [text[i..cut]];
        i := cut;
      } else {
        var cut := ProtectCut(idx, i, n, spans);
        if cut != idx {
          chunks := chunks + [text[i..cut]];
          i := cut;
        } else {
          chunks := chunks + [text[i..idx]];
          i := idx + |delim|;
        }
      }
      done := done + [p];
    }
    assert all == done by { PiecesUnfold(done, text, limit, delim, spans, n); }
    TextsNonEmpty(text, done);
    NonEmptyKeepsAll(chunks);
    r := NonEmpty(chunks);
  }

  lemma NoTexts(text: string)
    ensures Texts(text, []) == []
  {
  }

  lemma TextsNonEmpty(text: string, pieces: seq<Piece>)
    requires forall p :: p in pieces ==> p.start < p.end <= |text|
    ensures "" !in Texts(text, pieces)
  {
    forall k | 0 <= k < |pieces|
      ensures Texts(text, pieces)[k] != ""
    {
      assert pieces[k] in pieces;
    }
  }

  /** What a split of `text` owes its caller. */
  ghost predicate GoodSplit(text: string, limit: int, delim: string, chunks: seq<string>, pieces: seq<Piece>) {
    && |chunks| == |pieces|
    && Layout(text, delim, pieces, 0)
    && (forall k :: 0 <= k < |pieces| ==> chunks[k] == text[pieces[k].start..pieces[k].end])
    && (forall s: nat | TagEnd(text, s) != -1 :: TagWhole(text, pieces, s))
    && forall k :: 0 <= k < |pieces| ==>
      limit <= 0 || |chunks[k]| <= limit || TagEnd(text, pieces[k].start) == pieces[k].end
  }

  /** Some piece holds the whole tag that covers the opener at `s`. */
  ghost predicate TagWhole(text: string, pieces: seq<Piece>, s: nat) {
    exists k, a: nat :: 0 <= k < |pieces| && pieces[k].start <= a <= s < TagEnd(text, a) <= pieces[k].end
  }

  lemma OnePiece(text: string, limit: int, delim: string)
    requires text != "" && (limit <= 0 || |text| <= limit)
    ensures GoodSplit(text, limit, delim, [text], [Piece(0, |text|, |text|)])
  {
    forall s: nat | TagEnd(text, s) != -1
      ensures TagWhole(text, [Piece(0, |text|, |text|)], s)
    {
      var ps := [Piece(0, |text|, |text|)];
      assert ps[0].start <= s <= s < TagEnd(text, s) <= ps[0].end;
    }
  }

  lemma TagInPiece(text: string, limit: nat, delim: string, extra: seq<Span>, e: nat, s: nat)
    requires 0 < limit && TagEnd(text, s) != -1 && '<' !in delim && Behind(text, Tags(text, 0), extra, e)
    ensures TagWhole(text, Pieces(text, limit, delim, Tags(text, 0) + extra, 0), s)
  {
    hide Pieces, TagEnd;
    var spans := Tags(text, 0);
    var ps := Pieces(text, limit, delim, spans + extra, 0);
    TagsOrderly(text, 0);
    TagsCover(text, 0, s);
    var t :| 0 <= t < |spans| && spans[t].start <= s < spans[t].end;
    PiecesKeepTag(text, limit, delim, spans, extra, e, 0, t);
    var k :| 0 <= k < |ps| && ps[k].start <= spans[t].start && spans[t].end <= ps[k].end;
    assert ps[k].start <= spans[t].start <= s < TagEnd(text, spans[t].start) <= ps[k].end;
  }

  /** No complete tag is split by the pieces of the scan if lower-casing moves nothing up to the end of the
      last one. */
  lemma TagsWhole(text: string, limit: nat, delim: string)
    requires 0 < limit && LengthKept(text[..LastTagEnd(text)]) && '<' !in delim
    ensures forall s: nat | TagEnd(text, s) != -1 ::
      TagWhole(text, Pieces(text, limit, delim, Scan(text, Lower(text), 0), 0), s)
  {
    hide Pieces, TagEnd, TagWhole, Scan, Lower;
    var e := LastTagEnd(text);
    var extra := Scan(text, Lower(text), e);
    ScanStartsWithTags(text);
    TagsOrderly(text, 0);
    ScanFollows(text, Lower(text), e);
    assert Behind(text, Tags(text, 0), extra, e) by {
      assert forall k :: 0 <= k < |extra| ==> extra[k] in extra;
    }
    forall s: nat | TagEnd(text, s) != -1
      ensures TagWhole(text, Pieces(text, limit, delim, Scan(text, Lower(text), 0), 0), s)
    {
      TagInPiece(text, limit, delim, extra, e, s);
    }
  }

  lemma PiecesGood(text: string, limit: nat, delim: string)
    requires limit < |text| && 0 < limit && '<' !in delim
    ensures var ps := Pieces(text, limit, delim, Tags(text, 0), 0);
      && (forall p :: p in ps ==> p.start < p.end <= |text|)
      && GoodSplit(text, limit, delim, Texts(text, ps), ps)
  {
    hide Pieces, TagEnd, TagWhole, Tags;
    var spans := Tags(text, 0);
    var ps := Pieces(text, limit, delim, spans, 0);
    TagsOrderly(text, 0);
    PiecesCover(text, limit, delim, spans, 0);
    PiecesFit(text, limit, delim, spans, 0);
    PiecesInBounds(text, limit, delim, spans, 0);
    forall s: nat | TagEnd(text, s) != -1
      ensures TagWhole(text, ps, s)
    {
      assert spans + [] == spans;
      TagInPiece(text, limit, delim, [], |text|, s);
    }
    forall k | 0 <= k < |ps|
      ensures ps[k].end - ps[k].start <= limit || TagEnd(text, ps[k].start) == ps[k].end
    {
      assert ps[k] in ps;
    }
  }

  lemma NoTagAtAll()
    ensures forall s: nat :: TagEnd("", s) == -1
  {
  }

  lemma ShortPieces(text: string, limit: nat, delim: string, spans: seq<Span>)
    requires 0 < limit
    ensures |text| <= limit ==> Pieces(text, limit, delim, spans, 0) == if text == "" then [] else [Piece(0, |text|, |text|)]
  {
  }

  /** `chunk_text`, for every limit and every mode. Exact cover holds for every text; no tag is split if
      lower-casing moves nothing up to the end of the last one; and if it moves nothing at all, a chunk
      is only longer than the limit if it is exactly one tag. */
  method ChunkText(text: string, limit: int, mode: string) returns (chunks: seq<string>, ghost pieces: seq<Piece>)
    ensures text == "" ==> chunks == []
    ensures text != "" && (limit <= 0 || |text| <= limit) ==> chunks == [text]
    ensures "" !in chunks
    ensures text != "" ==>
      && Layout(text, Delimiter(mode), pieces, 0)
      && |chunks| == |pieces|
      && forall k :: 0 <= k < |pieces| ==> chunks[k] == text[pieces[k].start..pieces[k].end]
    ensures LengthKept(text[..LastTagEnd(text)]) ==> forall s: nat | TagEnd(text, s) != -1 :: TagWhole(text, pieces, s)
    ensures text != "" && LengthKept(text) ==> GoodSplit(text, limit, Delimiter(mode), chunks, pieces)
    ensures 0 < limit ==> pieces == PiecesOf(text, limit, mode)
  {
    hide Pieces, Scan, Lower, TagEnd, LastTagEnd;
    if 0 < limit {
      ShortPieces(text, limit, Delimiter(mode), Scan(text, Lower(text), 0));
    }
    if text == "" {
      NoTagAtAll();
      return [], [];
    }
    if limit <= 0 {
      OnePiece(text, limit, Delimiter(mode));
      return [text], [Piece(0, |text|, |text|)];
    }
    if |text| <= limit {
      OnePiece(text, limit, Delimiter(mode));
      return [text], [Piece(0, |text|, |text|)];
    }
    var delim := Delimiter(mode);
    var spans := FindSpans(text);
    chunks := ChunkByDelim(text, limit, delim, spans);
    pieces := Pieces(text, limit, delim, spans, 0);
    PiecesCover(text, limit, delim, spans, 0);
    TextsNonEmpty(text, pieces);
    if LengthKept(text[..LastTagEnd(text)]) {
      TagsWhole(text, limit, delim);
    }
    if LengthKept(text) {
      ScanIsTags(text);
      PiecesGood(text, limit, delim);
    }
  }
}
