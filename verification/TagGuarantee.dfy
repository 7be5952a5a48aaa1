/** Exactly when the promise "an `<at>` tag is never split" can be relied on.

    The chunker computes positions in the lower-cased text and cuts the text itself. A text that starts
    with `p` is safe whatever follows, tags included, if and only if lower-casing moves nothing in `p`. */
module TagGuarantee {
  import opened AtSpans
  import opened Chunker

  /** Every complete tag lies whole inside one chunk. */
  ghost predicate KeptWhole(text: string, limit: nat, mode: string)
    requires 0 < limit
  {
    forall s: nat | TagEnd(text, s) != -1 :: TagWhole(text, PiecesOf(text, limit, mode), s)
  }

  /** Ends whatever tag `p` may have opened, also for a reader that is off by up to `c`. */
  function Stopper(c: nat): string {
    seq(c + 3, _ => '>') + "</at>"
  }

  function Bait(p: string): string {
    Stopper(Growth(p)) + Probe(Growth(p))
  }

  lemma LowerOfBait(p: string)
    ensures LengthKept(Bait(p)) && Lower(p + Bait(p)) == Lower(p) + Bait(p)
  {
    var t := Bait(p);
    assert forall k :: 0 <= k < |t| ==> t[k] in "<at>x/";
    LowerConcat(p, t);
    LowerIsFold(t);
    assert FoldText(t) == t;
  }

  lemma BaitShape(p: string)
    ensures var c, b := Growth(p), Bait(p);
      && |b| == 2 * c + 17 && b[c + 4] == '/' && b[2 * c + 13] == '/'
      && forall k :: 0 <= k < |b| && b[k] == '<' ==> k == c + 3 || k == c + 8 || k == 2 * c + 12
  {
    var c, b := Growth(p), Bait(p);
    assert forall k :: 0 <= k < c + 3 ==> b[k] == '>';
    assert forall k :: c + 3 <= k < c + 8 ==> b[k] == "</at>"[k - c - 3];
    assert forall k :: c + 8 <= k < c + 12 ==> b[k] == "<at>"[k - c - 8];
    assert forall k :: c + 12 <= k < 2 * c + 12 ==> b[k] == 'x';
    assert forall k :: 2 * c + 12 <= k < 2 * c + 17 ==> b[k] == "</at>"[k - 2 * c - 12];
  }

  /** In the lower-cased text an opener is one of `p`, or the bait's. */
  lemma BaitOpener(p: string, s: nat)
    requires Occurs(Lower(p) + Bait(p), "<at", s)
    ensures s < |Lower(p)| || s == |Lower(p)| + Growth(p) + 8
  {
    hide Bait, Lower, Growth;
    var low := Lower(p) + Bait(p);
    MatchChars(low, "<at", s);
    BaitShape(p);
    assert low[s + 0] == '<' && low[s + 1] == 'a';
    assert forall k :: 0 <= k < |Bait(p)| ==> low[|Lower(p)| + k] == Bait(p)[k];
  }

  /** The bait's own opener is taken for a word, because the reader looks too far to the right. */
  lemma BaitIsSkipped(p: string)
    requires Growth(p) > 0
    ensures !Boundary(p + Bait(p), |Lower(p)| + Growth(p) + 8 + 3)
  {
    var c, text := Growth(p), p + Bait(p);
    assert text[|p| + (2 * c + 11)] == Bait(p)[2 * c + 11] == Probe(c)[c + 3] == 'x';
  }

  lemma StopperAnswers(p: string, start: nat)
    requires start < |Lower(p)|
    ensures var gt := Find(p + Bait(p), ">", start + 3); start + 3 <= gt <= |Lower(p)| + 2
  {
    var text := p + Bait(p);
    var g := if start + 3 <= |p| then |p| else start + 3;
    assert text[g] == Bait(p)[g - |p|] == '>';
    assert text[g..g + 1] == ">";
    assert Occurs(text, ">", g);
    hide Bait, Lower;
  }

  /** A span that opens in `p` ends with the stopper. */
  lemma StopperStops(p: string, from: nat)
    requires from <= |Lower(p)| + Growth(p) + 3
    ensures from <= Find(Lower(p) + Bait(p), "</at>", from) <= |Lower(p)| + Growth(p) + 3
  {
    var c, low := Growth(p), Lower(p) + Bait(p);
    var x := |Lower(p)| + c + 3;
    assert low[x..x + 5] == Bait(p)[c + 3..c + 8] == "</at>";
    assert Occurs(low, "</at>", x);
    hide Bait, Lower;
  }

  lemma RoundStops(p: string, i: nat)
    requires Growth(p) > 0
    ensures var r := RoundAt(p + Bait(p), Lower(p) + Bait(p), i);
      r.Take? ==> r.span.end <= |Lower(p)| + Growth(p) + 8
  {
    hide Bait, Lower, Boundary, Growth, Occurs;
    var start := Find(Lower(p) + Bait(p), "<at", i);
    if start != -1 {
      BaitOpener(p, start);
      BaitIsSkipped(p);
      if start < |Lower(p)| {
        StopperAnswers(p, start);
        StopperStops(p, Find(p + Bait(p), ">", start + 3) + 1);
      }
    }
  }

  lemma {:induction false} ScanStops(p: string, i: nat)
    requires Growth(p) > 0
    ensures forall span :: span in Scan(p + Bait(p), Lower(p) + Bait(p), i) ==> span.end <= |Lower(p)| + Growth(p) + 8
    decreases |Lower(p) + Bait(p)| - i
  {
    hide RoundAt, Growth, Bait, Lower;
    RoundStops(p, i);
    match RoundAt(p + Bait(p), Lower(p) + Bait(p), i) {
      case Stop =>
      case Skip(next) => ScanStops(p, next);
      case Take(span) => ScanStops(p, span.end);
    }
  }

  /** A cut one character before the end is not moved. */
  lemma BaitIsNotProtected(p: string)
    requires !LengthKept(p)
    ensures var text := p + Bait(p);
      |text| > 1 && !Inside(|text| - 1, Scan(text, Lower(text), 0))
  {
    hide Scan, Bait, Lower;
    GrowthPositive(p);
    LowerOfBait(p);
    BaitShape(p);
    var text := p + Bait(p);
    ScanStops(p, 0);
    var spans := Scan(text, Lower(text), 0);
    forall k | 0 <= k < |spans|
      ensures spans[k].end < |text| - 1
    {
      assert spans[k] in spans;
    }
  }

  /** Cut one character before its end, the bait is split: its tag is lost. */
  lemma BaitIsCut(p: string)
    requires !LengthKept(p)
    ensures var text := p + Bait(p); 1 < |text| && !KeptWhole(text, |text| - 1, "none")
  {
    hide Scan, Lower, Pieces, TagWhole, TagEnd, Stopper, Probe, Growth, Inside;
    BaitIsNotProtected(p);
    var text := p + Bait(p);
    CutNearTheEnd(text, Scan(text, Lower(text), 0));
    var head := p + Stopper(Growth(p));
    assert text == head + Probe(Growth(p));
    ProbeTag(head, Growth(p));
    NotWhole(head, Growth(p), PiecesOf(text, |text| - 1, "none"));
  }

  lemma CutNearTheEnd(text: string, spans: seq<Span>)
    requires |text| > 1 && !Inside(|text| - 1, spans)
    ensures var n := |text|; Pieces(text, n - 1, "", spans, 0) == [Piece(0, n - 1, n - 1), Piece(n - 1, n, n)]
  {
    var n := |text|;
    assert Pieces(text, n - 1, "", spans, n - 1) == [Piece(n - 1, n, n)];
  }

  lemma NotWhole(head: string, width: nat, ps: seq<Piece>)
    requires var n := |head + Probe(width)|; ps == [Piece(0, n - 1, n - 1), Piece(n - 1, n, n)]
    ensures !TagWhole(head + Probe(width), ps, |head|)
  {
    hide TagEnd, FoldText;
    var text := head + Probe(width);
    forall a: nat | a <= |head| < TagEnd(text, a)
      ensures TagEnd(text, a) == |text|
    {
      ProbeCloser(head, width, TagEnd(text, a) - 5);
    }
  }

  /** Behind `p` and up to the end of the last tag, lower-casing moves nothing. */
  predicate Clean(p: string, t: string) {
    |p| <= LastTagEnd(p + t) ==> LengthKept((p + t)[|p|..LastTagEnd(p + t)])
  }

  lemma SafeText(p: string, t: string, limit: nat, mode: string)
    requires LengthKept(p) && Clean(p, t) && 0 < limit
    ensures KeptWhole(p + t, limit, mode)
  {
    hide Scan, Lower, Pieces, TagWhole, TagEnd, LastTagEnd;
    var text, e := p + t, LastTagEnd(p + t);
    if |p| <= e {
      assert text[..e] == p + text[|p|..e];
    } else {
      assert text[..e] == p[..e];
    }
    TagsWhole(text, limit, Delimiter(mode));
  }

  /** No tag is split, whatever follows `p` that is clean up to the last tag, and whatever the limit and
      the mode, if and only if `p` keeps its length when lower-cased. */
  lemma TagsKeptIff(p: string)
    ensures LengthKept(p) <==>
      forall t, limit: nat, mode :: Clean(p, t) && 0 < limit < |p + t| ==> KeptWhole(p + t, limit, mode)
  {
    hide KeptWhole, Bait, Lower, Clean;
    if LengthKept(p) {
      forall t, limit: nat, mode | Clean(p, t) && 0 < limit < |p + t|
        ensures KeptWhole(p + t, limit, mode)
      {
        SafeText(p, t, limit, mode);
      }
    } else {
      LowerOfBait(p);
      BaitIsClean(p);
      BaitIsCut(p);
    }
  }

  lemma BaitIsClean(p: string)
    ensures Clean(p, Bait(p))
  {
    hide LastTagEnd;
    LowerOfBait(p);
    var text, e := p + Bait(p), LastTagEnd(p + Bait(p));
    if |p| <= e {
      assert text[|p|..e] == Bait(p)[..e - |p|];
    }
  }

  lemma BaitBreaksScan(p: string)
    requires !LengthKept(p)
    ensures var text := p + Bait(p); Scan(text, Lower(text), 0) != Tags(text, 0)
  {
    hide Scan, Lower, Pieces, TagWhole, TagEnd, Bait, Tags, Layout, Texts;
    BaitIsCut(p);
    var text := p + Bait(p);
    PiecesGood(text, |text| - 1, "");
  }

  /** The scan finds the complete tags, whatever follows `p`, under the same condition. */
  lemma ScanRightIff(p: string)
    ensures LengthKept(p) <==>
      forall t :: LengthKept(t) ==> Scan(p + t, Lower(p + t), 0) == Tags(p + t, 0)
  {
    if LengthKept(p) {
      forall t | LengthKept(t)
        ensures Scan(p + t, Lower(p + t), 0) == Tags(p + t, 0)
      {
        ScanIsTags(p + t);
      }
    } else {
      LowerOfBait(p);
      BaitBreaksScan(p);
    }
  }
}
