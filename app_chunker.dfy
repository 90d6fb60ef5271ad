/**
  The sentence/width chunker inlined in app.py's `main`: the reconciled tokens of one segment are
  gathered into a chunk that closes at a sentence end followed by a capitalised token, at the last
  token, or, when the chunk has grown past 26 characters, just before the token that overflowed it.
*/
module Chunker {
  import opened Text
  import opened Transcripts
  import opened Spans

  /** Words whose final period never ends a sentence. */
  const CommonAbbreviations: seq<string> := ["Dr.", "Mr.", "Mrs.", "Ms.", "Prof.", "St.", "Ave.", "etc.", "vs.", "Inc.", "Ltd.", "Co."]

  /** The width, in characters, past which a chunk of several tokens is cut. */
  const ChunkWidth: nat := 26

  /** `w in common_abbreviations`: some entry of the list is `w`. */
  predicate IsAbbreviation(w: string) {
    exists k :: 0 <= k < |CommonAbbreviations| && CommonAbbreviations[k] == w
  }

  /** The token ends with `.`, `!` or `?`. */
  predicate EndsSentence(w: string) {
    w != [] && (w[|w| - 1] == '.' || w[|w| - 1] == '!' || w[|w| - 1] == '?')
  }

  /** The first rule: token `i` ends a sentence, the next token starts with a capital, and token `i` is no abbreviation. */
  predicate SentenceBreak(tokens: seq<string>, i: nat) {
    i + 1 < |tokens| && EndsSentence(tokens[i]) && tokens[i + 1] != [] && IsUpper(tokens[i + 1][0])
    && !IsAbbreviation(tokens[i])
  }

  /** No token is empty, as none of `str.split()` is. */
  predicate NonEmpty(tokens: seq<string>) {
    forall k :: 0 <= k < |tokens| ==> tokens[k] != []
  }

  /** The third rule's test: the tokens `lo..hi`, joined by spaces, are wider than the limit and more than one. */
  predicate Overflows(tokens: seq<string>, lo: nat, hi: nat)
    requires lo <= hi <= |tokens|
  {
    |Join(" ", tokens[lo..hi])| > ChunkWidth && hi - lo > 1
  }


  /** One pass of the loop: token `i` joins the open chunk and the three rules are tried in order. */
  function CutAfter(c: Cut, tokens: seq<string>, i: nat): Cut
    requires c.lo <= i < |tokens|
  {
    if SentenceBreak(tokens, i) then Cut(c.spans + [Span(c.lo, i + 1, SentenceEnd)], i + 1)
    else if i == |tokens| - 1 then Cut(c.spans + [Span(c.lo, i + 1, LastToken)], i + 1)
    else if Overflows(tokens, c.lo, i + 1) then Cut(c.spans + [Span(c.lo, i, WidthOverflow)], i)
    else c
  }

  /** The state after the first `n` tokens: the open chunk starts by `n`, and the closed ones end before it. */
  function Cuts(tokens: seq<string>, n: nat): (c: Cut)
    requires n <= |tokens|
    ensures c.lo <= n && Bounded(c.spans, c.lo)
  {
    if n == 0 then Cut([], 0) else CutAfter(Cuts(tokens, n - 1), tokens, n - 1)
  }

  /** The closed chunks tile the tokens up to the open one. */
  lemma {:induction false} CutsTiles(tokens: seq<string>, n: nat)
    requires n <= |tokens|
    ensures Tiles(Cuts(tokens, n).spans, Cuts(tokens, n).lo) == true
  {
    if n > 0 {
      CutsTiles(tokens, n - 1);
      CutAfterTiles(Cuts(tokens, n - 1), tokens, n - 1);
    }
  }

  /** Each pass closes a non-empty chunk that starts where the open one did, or closes none. */
  lemma CutAfterTiles(c: Cut, tokens: seq<string>, i: nat)
    requires c.lo <= i < |tokens|
    ensures CutAfter(c, tokens, i).lo <= i + 1
    ensures Tiles(c.spans, c.lo) ==> Tiles(CutAfter(c, tokens, i).spans, CutAfter(c, tokens, i).lo)
  {
    var d := CutAfter(c, tokens, i);
    if d != c && Tiles(c.spans, c.lo) {
      var s := d.spans[|d.spans| - 1];
      assert d.spans == c.spans + [s] && s.lo == c.lo && s.hi == d.lo;
    }
  }

  function ChunkSpans(tokens: seq<string>): seq<Span>
  {
    Cuts(tokens, |tokens|).spans
  }

  /** The cues the chunker makes of one segment's tokens. */
  function SegmentChunks(tokens: seq<string>, timings: seq<Word>): seq<Segment>
    requires |tokens| == |timings|
  {
    CuesOf(tokens, timings, ChunkSpans(tokens))
  }

  /** The chunking loop over one segment's tokens and their reconciled timings. */
  method ChunkSegment(segmentWords: seq<string>, wordTimings: seq<Word>) returns (chunks: seq<Segment>)
    requires |wordTimings| == |segmentWords|
    requires NonEmpty(segmentWords)
    ensures chunks == SegmentChunks(segmentWords, wordTimings)
  {
    chunks := [];
    var currentWords: seq<string> := [];
    var currentTimings: seq<Word> := [];
    ghost var cut := Cut([], 0);
    var i := 0;
    while i < |segmentWords|
      invariant 0 <= i <= |segmentWords|
      invariant cut == Cuts(segmentWords, i)
      invariant currentWords == segmentWords[cut.lo..i] && currentTimings == wordTimings[cut.lo..i]
      invariant chunks == CuesOf(segmentWords, wordTimings, cut.spans)
    {
      chunks, currentWords, currentTimings, cut := ChunkNext(segmentWords, wordTimings, i, chunks, currentWords, currentTimings, cut);
      i := i + 1;
    }
  }

  /** One pass of the chunking loop, from the state after the first `i` tokens to the state after `i + 1`. */
  method ChunkNext(segmentWords: seq<string>, wordTimings: seq<Word>, i: nat, chunks: seq<Segment>,
                   currentWords: seq<string>, currentTimings: seq<Word>, ghost cut: Cut)
    returns (chunks': seq<Segment>, currentWords': seq<string>, currentTimings': seq<Word>, ghost cut': Cut)
    requires |wordTimings| == |segmentWords| && NonEmpty(segmentWords)
    requires i < |segmentWords| && cut == Cuts(segmentWords, i)
    requires currentWords == segmentWords[cut.lo..i] && currentTimings == wordTimings[cut.lo..i]
    requires chunks == CuesOf(segmentWords, wordTimings, cut.spans)
    ensures cut' == Cuts(segmentWords, i + 1)
    ensures currentWords' == segmentWords[cut'.lo..i + 1] && currentTimings' == wordTimings[cut'.lo..i + 1]
    ensures chunks' == CuesOf(segmentWords, wordTimings, cut'.spans)
  {
    CutsNext(segmentWords, i);
    CutsTiles(segmentWords, i);
    chunks', currentWords', currentTimings', cut' := ChunkToken(segmentWords, wordTimings, i, chunks, currentWords, currentTimings, cut);
  }

  /** Token `i` joins the open chunk, and the rules are tried in order. */
  method ChunkToken(segmentWords: seq<string>, wordTimings: seq<Word>, i: nat, chunks: seq<Segment>,
                    currentWords: seq<string>, currentTimings: seq<Word>, ghost cut: Cut)
    returns (chunks': seq<Segment>, currentWords': seq<string>, currentTimings': seq<Word>, ghost cut': Cut)
    requires |wordTimings| == |segmentWords| && NonEmpty(segmentWords)
    requires cut.lo <= i < |segmentWords| && Tiles(cut.spans, cut.lo)
    requires currentWords == segmentWords[cut.lo..i] && currentTimings == wordTimings[cut.lo..i]
    requires chunks == CuesOf(segmentWords, wordTimings, cut.spans)
    ensures cut' == CutAfter(cut, segmentWords, i)
    ensures currentWords' == segmentWords[cut'.lo..i + 1] && currentTimings' == wordTimings[cut'.lo..i + 1]
    ensures chunks' == CuesOf(segmentWords, wordTimings, cut'.spans)
  {
    CutAfterTiles(cut, segmentWords, i);
    var lo, spans := cut.lo, cut.spans;
    chunks', cut' := chunks, cut;
    var word, timing := segmentWords[i], wordTimings[i];
    SliceSnoc(segmentWords, lo, i);
    SliceSnoc(wordTimings, lo, i);
    currentWords' := currentWords + [word];
    currentTimings' := currentTimings + [timing];
    var shouldSplit := false;
    if i < |segmentWords| - 1 && EndsSentence(word) && IsUpper(segmentWords[i + 1][0]) && !IsAbbreviation(word) {
      assert SentenceBreak(segmentWords, i);
      cut' := Cut(spans + [Span(lo, i + 1, SentenceEnd)], i + 1);
      shouldSplit := true;
    } else if i == |segmentWords| - 1 {
      assert !SentenceBreak(segmentWords, i);
      cut' := Cut(spans + [Span(lo, i + 1, LastToken)], i + 1);
      shouldSplit := true;
    } else if |Join(" ", currentWords')| > ChunkWidth && |currentWords'| > 1 {
      assert !SentenceBreak(segmentWords, i) && Overflows(segmentWords, lo, i + 1);
      chunks', currentWords', currentTimings' := BackOff(segmentWords, wordTimings, i, chunks', currentWords', currentTimings', spans, lo);
      cut' := Cut(spans + [Span(lo, i, WidthOverflow)], i);
      shouldSplit := false;
    } else {
      assert !SentenceBreak(segmentWords, i) && !Overflows(segmentWords, lo, i + 1);
    }
    if shouldSplit && |currentTimings'| > 0 {
      chunks', currentWords', currentTimings' := CloseChunk(segmentWords, wordTimings, chunks', currentWords', currentTimings', spans, cut'.spans[|cut'.spans| - 1]);
    }
  }

  /** The split the first two rules ask for: the open chunk `s` is closed and a new, empty one opens. */
  method CloseChunk(segmentWords: seq<string>, wordTimings: seq<Word>, chunks: seq<Segment>,
                    currentWords: seq<string>, currentTimings: seq<Word>, ghost spans: seq<Span>, ghost s: Span)
    returns (chunks': seq<Segment>, currentWords': seq<string>, currentTimings': seq<Word>)
    requires |wordTimings| == |segmentWords|
    requires forall k :: 0 <= k < |spans| ==> spans[k].lo < spans[k].hi <= |segmentWords|
    requires s.lo < s.hi <= |segmentWords|
    requires currentWords == segmentWords[s.lo..s.hi] && currentTimings == wordTimings[s.lo..s.hi]
    requires chunks == CuesOf(segmentWords, wordTimings, spans)
    ensures chunks' == CuesOf(segmentWords, wordTimings, spans + [s])
    ensures currentWords' == segmentWords[s.hi..s.hi] && currentTimings' == wordTimings[s.hi..s.hi]
  {
    chunks' := AppendChunk(segmentWords, wordTimings, chunks, currentWords, currentTimings, spans, s);
    SliceEmpty(segmentWords, s.hi);
    SliceEmpty(wordTimings, s.hi);
    currentWords' := [];
    currentTimings' := [];
  }

  /**
    The third rule: the token that overflowed the open chunk `lo..i+1` is taken back off, the rest
    is closed, and a new chunk opens with that token.
  */
  method BackOff(segmentWords: seq<string>, wordTimings: seq<Word>, i: nat, chunks: seq<Segment>,
                 currentWords: seq<string>, currentTimings: seq<Word>, ghost spans: seq<Span>, ghost lo: nat)
    returns (chunks': seq<Segment>, currentWords': seq<string>, currentTimings': seq<Word>)
    requires |wordTimings| == |segmentWords|
    requires forall k :: 0 <= k < |spans| ==> spans[k].lo < spans[k].hi <= |segmentWords|
    requires lo < i < |segmentWords|
    requires currentWords == segmentWords[lo..i + 1] && currentTimings == wordTimings[lo..i + 1]
    requires chunks == CuesOf(segmentWords, wordTimings, spans)
    ensures chunks' == CuesOf(segmentWords, wordTimings, spans + [Span(lo, i, WidthOverflow)])
    ensures currentWords' == segmentWords[i..i + 1] && currentTimings' == wordTimings[i..i + 1]
  {
    var word, timing := segmentWords[i], wordTimings[i];
    SliceDrop(segmentWords, lo, i);
    SliceDrop(wordTimings, lo, i);
    currentWords' := currentWords[..|currentWords| - 1];
    currentTimings' := currentTimings[..|currentTimings| - 1];
    chunks' := chunks;
    if |currentTimings'| > 0 {
      chunks' := AppendChunk(segmentWords, wordTimings, chunks', currentWords', currentTimings', spans, Span(lo, i, WidthOverflow));
    }
    SliceOne(segmentWords, i);
    SliceOne(wordTimings, i);
    currentWords' := [word];
    currentTimings' := [timing];
  }

  /** Closes the open chunk `s`: its tokens joined by spaces, from its first token's start to its last token's end. */
  method AppendChunk(segmentWords: seq<string>, wordTimings: seq<Word>, chunks: seq<Segment>,
                     currentWords: seq<string>, currentTimings: seq<Word>, ghost spans: seq<Span>, ghost s: Span)
    returns (chunks': seq<Segment>)
    requires |wordTimings| == |segmentWords|
    requires forall k :: 0 <= k < |spans| ==> spans[k].lo < spans[k].hi <= |segmentWords|
    requires s.lo < s.hi <= |segmentWords|
    requires currentWords == segmentWords[s.lo..s.hi] && currentTimings == wordTimings[s.lo..s.hi]
    requires chunks == CuesOf(segmentWords, wordTimings, spans)
    ensures chunks' == CuesOf(segmentWords, wordTimings, spans + [s])
  {
    var currentText := Join(" ", currentWords);
    var startTime := currentTimings[0].start;
    var endTime := currentTimings[|currentTimings| - 1].end;
    CueOfCurrent(segmentWords, wordTimings, s, currentTimings);
    CuesSnoc(segmentWords, wordTimings, spans, s);
    chunks' := chunks + [Segment(currentText, startTime, endTime)];
  }

  lemma CutsNext(tokens: seq<string>, i: nat)
    requires i < |tokens|
    ensures Cuts(tokens, i + 1) == CutAfter(Cuts(tokens, i), tokens, i)
  {
  }

  // ---------------------------------------------------------------- what the chunks are

  /** No token in `lo..hi` meets the first rule. */
  predicate Quiet(tokens: seq<string>, lo: nat, hi: nat) {
    forall j: nat {:trigger SentenceBreak(tokens, j)} :: lo <= j < hi ==> !SentenceBreak(tokens, j)
  }

  /**
    The rule named by a closed chunk is the one that held when it was closed, and no token before
    its last one would have closed it: a sentence break only at its end, the last token only at the
    end of the segment, and an overflow only by the token just after it.
  */
  predicate Justified(tokens: seq<string>, s: Span)
    requires s.lo < s.hi <= |tokens|
  {
    match s.reason
    case SentenceEnd =>
      SentenceBreak(tokens, s.hi - 1) && Quiet(tokens, s.lo, s.hi - 1) && !Overflows(tokens, s.lo, s.hi - 1)
    case LastToken =>
      s.hi == |tokens| && Quiet(tokens, s.lo, s.hi) && !Overflows(tokens, s.lo, s.hi - 1)
    case WidthOverflow =>
      s.hi + 1 < |tokens| && Quiet(tokens, s.lo, s.hi + 1) && !Overflows(tokens, s.lo, s.hi) && Overflows(tokens, s.lo, s.hi + 1)
    case _ => false
  }

  /** The open chunk `lo..n` holds no sentence break and does not overflow. */
  predicate OpenChunk(tokens: seq<string>, lo: nat, n: nat)
    requires lo <= n <= |tokens|
  {
    Quiet(tokens, lo, n) && !Overflows(tokens, lo, n)
  }

  /** Every chunk of `spans` lies within the tokens and is justified by the rule it names. */
  predicate AllJustified(tokens: seq<string>, spans: seq<Span>) {
    forall k {:trigger Justified(tokens, spans[k])} :: 0 <= k < |spans| ==>
      spans[k].lo < spans[k].hi <= |tokens| && Justified(tokens, spans[k])
  }

  lemma AllJustifiedAt(tokens: seq<string>, spans: seq<Span>, k: nat)
    requires AllJustified(tokens, spans) && k < |spans|
    ensures spans[k].lo < spans[k].hi <= |tokens| && Justified(tokens, spans[k])
  {
    assert spans[k].lo < spans[k].hi <= |tokens| && Justified(tokens, spans[k]);
  }

  /** The pass over token `n - 1` keeps the open chunk free of sentence breaks and overflow. */
  lemma CutAfterOpen(c: Cut, tokens: seq<string>, n: nat)
    requires 0 < n <= |tokens| && c.lo <= n - 1 && OpenChunk(tokens, c.lo, n - 1)
    ensures var d := CutAfter(c, tokens, n - 1); d.lo <= n && OpenChunk(tokens, d.lo, n)
  {
  }

  /** The pass over token `n - 1` closes only a chunk justified by the rule it names. */
  lemma {:induction false} CutAfterJustified(c: Cut, tokens: seq<string>, n: nat)
    requires 0 < n <= |tokens| && c.lo <= n - 1
    ensures OpenChunk(tokens, c.lo, n - 1) && AllJustified(tokens, c.spans) ==> AllJustified(tokens, CutAfter(c, tokens, n - 1).spans)
  {
    var i := n - 1;
    var d := CutAfter(c, tokens, i);
    if d != c && OpenChunk(tokens, c.lo, n - 1) && AllJustified(tokens, c.spans) {
      var s := ClosedBy(c, tokens, i);
      JustifiedSnoc(tokens, c.spans, s);
    }
  }

  /** The chunk a pass closes, when it closes one, is justified by its rule. */
  lemma ClosedBy(c: Cut, tokens: seq<string>, i: nat) returns (s: Span)
    requires c.lo <= i < |tokens| && OpenChunk(tokens, c.lo, i) && CutAfter(c, tokens, i) != c
    ensures CutAfter(c, tokens, i).spans == c.spans + [s]
    ensures s.lo < s.hi <= |tokens| && Justified(tokens, s)
  {
    if SentenceBreak(tokens, i) {
      s := Span(c.lo, i + 1, SentenceEnd);
    } else if i == |tokens| - 1 {
      s := Span(c.lo, i + 1, LastToken);
    } else {
      s := Span(c.lo, i, WidthOverflow);
    }
  }

  lemma {:induction false} JustifiedSnoc(tokens: seq<string>, spans: seq<Span>, s: Span)
    requires AllJustified(tokens, spans) && s.lo < s.hi <= |tokens| && Justified(tokens, s)
    ensures AllJustified(tokens, spans + [s])
  {
    forall k | 0 <= k < |spans| + 1
      ensures (spans + [s])[k].lo < (spans + [s])[k].hi <= |tokens| && Justified(tokens, (spans + [s])[k])
    {
      if k < |spans| {
        AllJustifiedAt(tokens, spans, k);
      }
    }
  }

  /** The open chunk holds no sentence break and does not overflow. */
  lemma {:induction false} CutsOpen(tokens: seq<string>, n: nat)
    requires n <= |tokens|
    ensures OpenChunk(tokens, Cuts(tokens, n).lo, n)
  {
    if n > 0 {
      CutsOpen(tokens, n - 1);
      CutAfterOpen(Cuts(tokens, n - 1), tokens, n);
    }
  }

  /** Every closed chunk is justified by the rule it names. */
  lemma CutsJustified(tokens: seq<string>, n: nat)
    requires n <= |tokens|
    ensures AllJustified(tokens, Cuts(tokens, n).spans)
  {
    CutsJustifiedFrom(tokens, n);
  }

  /** The induction behind `CutsJustified`, stated as an equation so that the verifier does not unfold it. */
  lemma {:induction false} CutsJustifiedFrom(tokens: seq<string>, n: nat)
    requires n <= |tokens|
    ensures AllJustified(tokens, Cuts(tokens, n).spans) == true
  {
    if n > 0 {
      CutsJustifiedFrom(tokens, n - 1);
      CutsOpen(tokens, n - 1);
      CutAfterJustified(Cuts(tokens, n - 1), tokens, n);
    } else {
      assert Cuts(tokens, n).spans == [];
    }
  }

  /** After the last token nothing is left open. */
  lemma {:induction false} ChunkSpansTile(tokens: seq<string>)
    ensures Cuts(tokens, |tokens|).lo == |tokens|
    ensures Tiles(ChunkSpans(tokens), |tokens|)
  {
    CutsTiles(tokens, |tokens|);
    if |tokens| > 0 {
      assert Cuts(tokens, |tokens|) == CutAfter(Cuts(tokens, |tokens| - 1), tokens, |tokens| - 1);
    }
  }

  /** Every sentence break ends a chunk, and ends it for that reason. */
  lemma SentenceBreaksEndChunks(tokens: seq<string>, i: nat)
    requires SentenceBreak(tokens, i)
    ensures exists k :: 0 <= k < |ChunkSpans(tokens)| && ChunkSpans(tokens)[k] == Span(ChunkSpans(tokens)[k].lo, i + 1, SentenceEnd)
  {
    var spans := ChunkSpans(tokens);
    ChunkSpansTile(tokens);
    CutsJustified(tokens, |tokens|);
    var k := Locate(spans, i);
    AllJustifiedAt(tokens, spans, k);
    JustifiedBreak(tokens, spans[k], i);
  }

  /** A sentence break inside a justified chunk is its last token, and the chunk was closed for it. */
  lemma JustifiedBreak(tokens: seq<string>, s: Span, i: nat)
    requires s.lo <= i < s.hi <= |tokens| && Justified(tokens, s) && SentenceBreak(tokens, i)
    ensures s.hi == i + 1 && s.reason == SentenceEnd
  {
  }

  /** The pass over token `n - 1` keeps the closed chunks giving back the tokens before the open one. */
  lemma CutAfterKeepsTokens(c: Cut, tokens: seq<string>, timings: seq<Word>, n: nat)
    requires |tokens| == |timings| && IsWordList(tokens)
    requires 0 < n <= |tokens| && c.lo <= n - 1 && Tiles(c.spans, c.lo)
    ensures var d := CutAfter(c, tokens, n - 1);
      WordsOfAll(Texts(CuesOf(tokens, timings, c.spans))) == tokens[..c.lo] ==>
      WordsOfAll(Texts(CuesOf(tokens, timings, d.spans))) == tokens[..d.lo]
  {
    CutAfterTiles(c, tokens, n - 1);
    var d := CutAfter(c, tokens, n - 1);
    if d != c && WordsOfAll(Texts(CuesOf(tokens, timings, c.spans))) == tokens[..c.lo] {
      var s := d.spans[|d.spans| - 1];
      assert d.spans == c.spans + [s] && s.lo == c.lo && s.hi == d.lo;
      KeepTokensSnoc(tokens, timings, c.spans, s);
    }
  }

  /** Splitting the chunks' texts on whitespace gives the first tokens back, up to the open chunk. */
  lemma {:induction false} CutsKeepTokens(tokens: seq<string>, timings: seq<Word>, n: nat)
    requires |tokens| == |timings| && n <= |tokens|
    ensures IsWordList(tokens) ==>
      WordsOfAll(Texts(CuesOf(tokens, timings, Cuts(tokens, n).spans))) == tokens[..Cuts(tokens, n).lo]
  {
    if n > 0 {
      CutsKeepTokens(tokens, timings, n - 1);
      CutsKeepTokensStep(tokens, timings, n);
    } else {
      CutsKeepTokensNone(tokens, timings);
    }
  }

  lemma CutsKeepTokensNone(tokens: seq<string>, timings: seq<Word>)
    requires |tokens| == |timings|
    ensures WordsOfAll(Texts(CuesOf(tokens, timings, Cuts(tokens, 0).spans))) == tokens[..Cuts(tokens, 0).lo]
  {
    assert CuesOf(tokens, timings, []) == [];
  }

  lemma CutsKeepTokensStep(tokens: seq<string>, timings: seq<Word>, n: nat)
    requires |tokens| == |timings| && 0 < n <= |tokens|
    ensures IsWordList(tokens) && WordsOfAll(Texts(CuesOf(tokens, timings, Cuts(tokens, n - 1).spans))) == tokens[..Cuts(tokens, n - 1).lo] ==>
            WordsOfAll(Texts(CuesOf(tokens, timings, Cuts(tokens, n).spans))) == tokens[..Cuts(tokens, n).lo]
  {
    if IsWordList(tokens) {
      CutsTiles(tokens, n - 1);
      CutAfterKeepsTokens(Cuts(tokens, n - 1), tokens, timings, n);
    }
  }

  /** No token is lost, repeated or reordered: the chunks' texts split back into the segment's tokens. */
  lemma ChunksKeepTokens(tokens: seq<string>, timings: seq<Word>)
    requires |tokens| == |timings| && IsWordList(tokens)
    ensures WordsOfAll(Texts(SegmentChunks(tokens, timings))) == tokens
  {
    CutsKeepTokens(tokens, timings, |tokens|);
    ChunkSpansTile(tokens);
    assert tokens[..|tokens|] == tokens;
  }

  /** The chunks run from the first token's start to the last token's end, one after the other in token order. */
  lemma ChunksSpanTimings(tokens: seq<string>, timings: seq<Word>)
    requires |tokens| == |timings|
    ensures var chunks := SegmentChunks(tokens, timings);
      (chunks == [] <==> tokens == [])
      && (chunks != [] ==> chunks[0].start == timings[0].start && chunks[|chunks| - 1].end == timings[|timings| - 1].end)
  {
    ChunkSpansTile(tokens);
  }

  /** What the rule named by a justified chunk says about its width. */
  lemma JustifiedWidth(tokens: seq<string>, s: Span)
    requires s.lo < s.hi <= |tokens| && Justified(tokens, s)
    ensures s.reason == SentenceEnd || s.reason == LastToken || s.reason == WidthOverflow
    ensures s.reason != WidthOverflow ==> !Overflows(tokens, s.lo, s.hi - 1)
    ensures s.reason == WidthOverflow ==> !Overflows(tokens, s.lo, s.hi) && Overflows(tokens, s.lo, s.hi + 1)
  {
  }

  /**
    A chunk closed for width fits in 26 characters unless it is a single token, and the next token
    would have made it overflow; a chunk closed for another reason fits without its last token.
  */
  lemma ChunkWidths(tokens: seq<string>, k: nat)
    requires k < |ChunkSpans(tokens)|
    ensures var s := ChunkSpans(tokens)[k];
      s.lo < s.hi <= |tokens|
      && (s.reason != WidthOverflow ==> !Overflows(tokens, s.lo, s.hi - 1))
      && (s.reason == WidthOverflow ==> !Overflows(tokens, s.lo, s.hi) && Overflows(tokens, s.lo, s.hi + 1))
  {
    var spans := ChunkSpans(tokens);
    CutsJustified(tokens, |tokens|);
    AllJustifiedAt(tokens, spans, k);
    JustifiedWidth(tokens, spans[k]);
  }

  /**
    A chunk closed at a sentence end stops after a token ending in `.`, `!` or `?` that is followed by
    a capitalised token and is not an abbreviation; only the final chunk is closed as the last token,
    and no chunk is closed for width just before the final token.
  */
  lemma ChunkReasons(tokens: seq<string>, k: nat)
    requires k < |ChunkSpans(tokens)|
    ensures var s := ChunkSpans(tokens)[k];
      && (s.reason == SentenceEnd ==>
            s.hi < |tokens| && EndsSentence(tokens[s.hi - 1]) && tokens[s.hi] != [] && IsUpper(tokens[s.hi][0])
            && tokens[s.hi - 1] !in CommonAbbreviations)
      && (s.reason == LastToken <==> s.hi == |tokens|)
      && (s.reason == WidthOverflow ==> s.hi + 1 < |tokens|)
  {
    var spans := ChunkSpans(tokens);
    CutsJustified(tokens, |tokens|);
    AllJustifiedAt(tokens, spans, k);
  }
}
