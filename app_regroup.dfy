/**
  The words-only regrouping inlined in app.py's `main`, used when the transcription has word
  timestamps but no segments: the words are gathered into segments that close at the last word, at
  a word containing `.`, `!` or `?`, before a capitalised word once two words are gathered, or at a
  long pause after a single word. The text of a segment is its words joined by single spaces, kept
  exactly as the API returned them.
*/
module Regrouping {
  import opened Wrappers
  import opened Text
  import opened Transcripts
  import opened Spans

  /** A gap between words, in seconds, that closes a one-word segment. */
  const PauseThreshold: real := 1.2

  /** The word count past which a segment would be forced closed. */
  const MaxSegmentWords: nat := 12

  /** `has_sentence_ending`: the word contains `.`, `!` or `?` anywhere. */
  predicate HasSentenceEnding(w: string) {
    '.' in w || '!' in w || '?' in w
  }

  /** `is_sentence_start`: the word starts with a capital letter and is longer than one character. */
  predicate IsSentenceStart(w: string) {
    w != [] && IsUpper(w[0]) && |w| > 1
  }

  /** The text of each word. */
  function Spoken(words: seq<Word>): (texts: seq<string>)
    ensures |texts| == |words|
    ensures forall k :: 0 <= k < |words| ==> texts[k] == words[k].word
  {
    seq(|words|, k requires 0 <= k < |words| => words[k].word)
  }

  /**
    The rule that closes the open segment `lo..i+1` once word `i` has joined it, tried in the order
    of the loop's `elif` chain; `None` when it stays open. `i - lo + 1` is the number of words gathered.
  */
  function RuleAt(words: seq<Word>, lo: nat, i: nat): Option<Reason>
    requires lo <= i < |words|
  {
    if i == |words| - 1 then Some(LastToken)
    else if HasSentenceEnding(words[i].word) then Some(EndingInside)
    else if i + 1 < |words| && i - lo + 1 >= 2 then
      (if IsSentenceStart(words[i + 1].word) then Some(BeforeSentenceStart) else None)
    else if i + 1 < |words| then
      (if words[i + 1].start - words[i].end > PauseThreshold then Some(Pause) else None)
    else if i - lo + 1 >= MaxSegmentWords then Some(WordCap)
    else None
  }

  /** One pass of the loop: word `i` joins the open segment, which closes if a rule fires. */
  function GroupAfter(c: Cut, words: seq<Word>, i: nat): Cut
    requires c.lo <= i < |words|
  {
    match RuleAt(words, c.lo, i)
    case None => c
    case Some(r) => Cut(c.spans + [Span(c.lo, i + 1, r)], i + 1)
  }

  /** The state after the first `n` words: the open segment starts by `n`, and the closed ones end before it. */
  function Groupings(words: seq<Word>, n: nat): (c: Cut)
    requires n <= |words|
    ensures c.lo <= n && Bounded(c.spans, c.lo)
  {
    if n == 0 then Cut([], 0) else GroupAfter(Groupings(words, n - 1), words, n - 1)
  }

  lemma GroupAfterTiles(c: Cut, words: seq<Word>, i: nat)
    requires c.lo <= i < |words|
    ensures GroupAfter(c, words, i).lo <= i + 1
    ensures Tiles(c.spans, c.lo) ==> Tiles(GroupAfter(c, words, i).spans, GroupAfter(c, words, i).lo)
  {
  }

  /** The closed segments tile the words up to the open one. */
  lemma {:induction false} GroupingsTiles(words: seq<Word>, n: nat)
    requires n <= |words|
    ensures Tiles(Groupings(words, n).spans, Groupings(words, n).lo) == true
  {
    if n > 0 {
      GroupingsTiles(words, n - 1);
      GroupAfterTiles(Groupings(words, n - 1), words, n - 1);
    }
  }

  function GroupSpans(words: seq<Word>): seq<Span>
  {
    Groupings(words, |words|).spans
  }

  /** The segments the regrouping builds from the words. */
  function Regrouped(words: seq<Word>): seq<Segment>
  {
    CuesOf(Spoken(words), words, GroupSpans(words))
  }

  /** The regrouping loop over the transcription's words. */
  method RegroupWords(words: seq<Word>) returns (segments: seq<Segment>)
    ensures segments == Regrouped(words)
  {
    segments := [];
    var currentWords: seq<string> := [];
    var segmentStart: Option<real> := None;
    ghost var cut := Cut([], 0);
    var i := 0;
    while i < |words|
      invariant 0 <= i <= |words|
      invariant cut == Groupings(words, i)
      invariant currentWords == Spoken(words)[cut.lo..i]
      invariant segmentStart == if cut.lo == i then None else Some(words[cut.lo].start)
      invariant segments == CuesOf(Spoken(words), words, cut.spans)
    {
      GroupingsNext(words, i);
      GroupingsTiles(words, i);
      segments, currentWords, segmentStart, cut := RegroupWord(words, i, segments, currentWords, segmentStart, cut);
      i := i + 1;
    }
  }

  /** One pass of the regrouping loop: word `i` joins the open segment, and the rules are tried in order. */
  method RegroupWord(words: seq<Word>, i: nat, segments: seq<Segment>, currentWords: seq<string>,
                     segmentStart: Option<real>, ghost cut: Cut)
    returns (segments': seq<Segment>, currentWords': seq<string>, segmentStart': Option<real>, ghost cut': Cut)
    requires cut.lo <= i < |words| && Tiles(cut.spans, cut.lo)
    requires currentWords == Spoken(words)[cut.lo..i]
    requires segmentStart == if cut.lo == i then None else Some(words[cut.lo].start)
    requires segments == CuesOf(Spoken(words), words, cut.spans)
    ensures cut' == GroupAfter(cut, words, i)
    ensures currentWords' == Spoken(words)[cut'.lo..i + 1]
    ensures segmentStart' == if cut'.lo == i + 1 then None else Some(words[cut'.lo].start)
    ensures segments' == CuesOf(Spoken(words), words, cut'.spans)
  {
    ghost var texts := Spoken(words);
    ghost var lo := cut.lo;
    GroupAfterTiles(cut, words, i);
    var word := words[i];
    segmentStart' := segmentStart;
    if segmentStart'.None? {
      segmentStart' := Some(word.start);
    }
    SliceSnoc(texts, lo, i);
    currentWords' := currentWords + [word.word];
    var shouldSegment := false;
    if i == |words| - 1 {
      shouldSegment := true;
    } else if HasSentenceEnding(word.word) {
      shouldSegment := true;
    } else if i + 1 < |words| && |currentWords'| >= 2 {
      var nextWord := words[i + 1];
      if IsSentenceStart(nextWord.word) {
        shouldSegment := true;
      }
    } else if i + 1 < |words| {
      var nextWord := words[i + 1];
      if nextWord.start - word.end > PauseThreshold {
        shouldSegment := true;
      }
    } else if |currentWords'| >= MaxSegmentWords {
      shouldSegment := true;
    }
    assert shouldSegment == RuleAt(words, lo, i).Some?;
    cut' := GroupAfter(cut, words, i);
    segments' := segments;
    if shouldSegment {
      ghost var closed := Span(lo, i + 1, RuleAt(words, lo, i).value);
      assert cut'.spans == cut.spans + [closed];
      var segmentText := Join(" ", currentWords');
      CuesSnoc(texts, words, cut.spans, closed);
      segments' := segments + [Segment(segmentText, segmentStart'.value, word.end)];
      SliceEmpty(texts, i + 1);
      currentWords' := [];
      segmentStart' := None;
    }
  }

  lemma GroupingsNext(words: seq<Word>, i: nat)
    requires i < |words|
    ensures Groupings(words, i + 1) == GroupAfter(Groupings(words, i), words, i)
  {
  }

  // ---------------------------------------------------------------- what the segments are

  /**
    What each rule means. The `elif` testing the next word for a sentence start takes every
    position with two or more words gathered, so a pause closes only a one-word segment, and the
    word cap is never reached: its branch is only tried at the last word, which the first rule takes.
  */
  lemma RuleAtFacts(words: seq<Word>, lo: nat, i: nat)
    requires lo <= i < |words|
    ensures var r := RuleAt(words, lo, i);
      && r != Some(WordCap)
      && (r == Some(LastToken) <==> i == |words| - 1)
      && (HasSentenceEnding(words[i].word) ==> r.Some?)
      && (r == Some(EndingInside) ==> HasSentenceEnding(words[i].word))
      && (r == Some(BeforeSentenceStart) ==> i > lo && i + 1 < |words| && IsSentenceStart(words[i + 1].word))
      && (r == Some(Pause) ==> i == lo && i + 1 < |words| && words[i + 1].start - words[i].end > PauseThreshold)
      && (r == None ==>
            i + 1 < |words| && !HasSentenceEnding(words[i].word)
            && (i > lo ==> !IsSentenceStart(words[i + 1].word))
            && (i == lo ==> words[i + 1].start - words[i].end <= PauseThreshold))
  {
  }

  /** No word of `lo..hi` closes the segment opened at `lo`. */
  predicate Open(words: seq<Word>, lo: nat, hi: nat)
    decreases hi
  {
    hi <= lo || (hi <= |words| && Open(words, lo, hi - 1) && RuleAt(words, lo, hi - 1) == None)
  }

  lemma {:induction false} OpenAt(words: seq<Word>, lo: nat, hi: nat, j: nat)
    ensures Open(words, lo, hi) && lo <= j < hi ==> j < |words| && RuleAt(words, lo, j) == None
    decreases hi
  {
    if lo < hi && j < hi - 1 {
      OpenAt(words, lo, hi - 1, j);
    }
  }

  /** A closed segment was closed by the rule it names at its last word, and by no rule before. */
  predicate Closed(words: seq<Word>, s: Span) {
    s.lo < s.hi <= |words| && RuleAt(words, s.lo, s.hi - 1) == Some(s.reason) && Open(words, s.lo, s.hi - 1)
  }

  predicate AllClosed(words: seq<Word>, spans: seq<Span>)
    decreases |spans|
  {
    spans == [] || (AllClosed(words, spans[..|spans| - 1]) && Closed(words, spans[|spans| - 1]))
  }

  lemma {:induction false} AllClosedAt(words: seq<Word>, spans: seq<Span>, k: nat)
    requires AllClosed(words, spans) && k < |spans|
    ensures Closed(words, spans[k])
    decreases |spans|
  {
    if k < |spans| - 1 {
      AllClosedAt(words, spans[..|spans| - 1], k);
    }
  }

  /** The pass over word `n - 1` keeps the open segment open or closes it by the rule that fired. */
  lemma GroupAfterClosed(c: Cut, words: seq<Word>, n: nat)
    requires 0 < n <= |words| && c.lo <= n - 1
    ensures var d := GroupAfter(c, words, n - 1);
      Open(words, c.lo, n - 1) && AllClosed(words, c.spans) ==> Open(words, d.lo, n) && AllClosed(words, d.spans)
  {
    var i := n - 1;
    var d := GroupAfter(c, words, i);
    if RuleAt(words, c.lo, i).Some? && Open(words, c.lo, n - 1) && AllClosed(words, c.spans) {
      var s := Span(c.lo, i + 1, RuleAt(words, c.lo, i).value);
      assert d.spans == c.spans + [s];
      assert d.spans[..|d.spans| - 1] == c.spans;
    }
  }

  lemma {:induction false} GroupingsClosed(words: seq<Word>, n: nat)
    requires n <= |words|
    ensures Open(words, Groupings(words, n).lo, n) && AllClosed(words, Groupings(words, n).spans)
  {
    if n > 0 {
      GroupingsClosed(words, n - 1);
      GroupAfterClosed(Groupings(words, n - 1), words, n);
    }
  }

  /** After the last word nothing is left open. */
  lemma {:induction false} GroupSpansTile(words: seq<Word>)
    ensures Groupings(words, |words|).lo == |words|
    ensures Tiles(GroupSpans(words), |words|)
  {
    GroupingsTiles(words, |words|);
    if |words| > 0 {
      assert Groupings(words, |words|) == GroupAfter(Groupings(words, |words| - 1), words, |words| - 1);
    }
  }

  /** What a closed segment says about its words, by the rule that closed it. */
  lemma ClosedFacts(words: seq<Word>, s: Span)
    requires Closed(words, s)
    ensures s.reason != WordCap
    ensures s.reason == LastToken <==> s.hi == |words|
    ensures s.reason == EndingInside ==> HasSentenceEnding(words[s.hi - 1].word)
    ensures s.reason == BeforeSentenceStart ==> s.hi - s.lo >= 2 && s.hi < |words| && IsSentenceStart(words[s.hi].word)
    ensures s.reason == Pause ==> s.hi - s.lo == 1 && s.hi < |words| && words[s.hi].start - words[s.hi - 1].end > PauseThreshold
  {
    RuleAtFacts(words, s.lo, s.hi - 1);
  }

  /** No rule fired inside a closed segment. */
  lemma ClosedInterior(words: seq<Word>, s: Span, j: nat)
    requires Closed(words, s) && s.lo <= j < s.hi - 1
    ensures !HasSentenceEnding(words[j].word)
    ensures j > s.lo ==> !IsSentenceStart(words[j + 1].word)
    ensures j == s.lo ==> words[j + 1].start - words[j].end <= PauseThreshold
  {
    OpenAt(words, s.lo, s.hi - 1, j);
    RuleAtFacts(words, s.lo, j);
  }

  /** A word containing `.`, `!` or `?` inside a closed segment is its last word. */
  lemma ClosedEnding(words: seq<Word>, s: Span, i: nat)
    requires Closed(words, s) && s.lo <= i < s.hi && HasSentenceEnding(words[i].word)
    ensures s.hi == i + 1
  {
    OpenAt(words, s.lo, s.hi - 1, i);
    RuleAtFacts(words, s.lo, i);
  }

  /**
    Why each segment was closed: the last word closes the final one and no other; a word containing
    `.`, `!` or `?` closes its segment; a capitalised word longer than one character closes the
    segment before it once two words are gathered; a pause of more than 1.2 seconds closes a segment
    of a single word; and the 12-word cap never closes one.
  */
  lemma GroupReasons(words: seq<Word>, k: nat)
    requires k < |GroupSpans(words)|
    ensures var s := GroupSpans(words)[k];
      && s.lo < s.hi <= |words|
      && s.reason != WordCap
      && (s.reason == LastToken <==> s.hi == |words|)
      && (s.reason == EndingInside ==> HasSentenceEnding(words[s.hi - 1].word))
      && (s.reason == BeforeSentenceStart ==> s.hi - s.lo >= 2 && s.hi < |words| && IsSentenceStart(words[s.hi].word))
      && (s.reason == Pause ==> s.hi - s.lo == 1 && s.hi < |words| && words[s.hi].start - words[s.hi - 1].end > PauseThreshold)
  {
    var spans := GroupSpans(words);
    GroupingsClosed(words, |words|);
    AllClosedAt(words, spans, k);
    ClosedFacts(words, spans[k]);
  }

  /**
    Inside a segment no rule fired: no word before the last contains `.`, `!` or `?`; none but the
    first is followed by a sentence start; the first is not followed by a long pause.
  */
  lemma GroupInterior(words: seq<Word>, k: nat, j: nat)
    requires k < |GroupSpans(words)|
    requires GroupSpans(words)[k].lo <= j < GroupSpans(words)[k].hi - 1
    ensures var s := GroupSpans(words)[k];
      && !HasSentenceEnding(words[j].word)
      && (j > s.lo ==> !IsSentenceStart(words[j + 1].word))
      && (j == s.lo ==> words[j + 1].start - words[j].end <= PauseThreshold)
  {
    var spans := GroupSpans(words);
    GroupingsClosed(words, |words|);
    AllClosedAt(words, spans, k);
    ClosedInterior(words, spans[k], j);
  }

  /** Every word containing `.`, `!` or `?` is the last word of a segment. */
  lemma EndingsCloseGroups(words: seq<Word>, i: nat)
    requires i < |words| && HasSentenceEnding(words[i].word)
    ensures exists k :: 0 <= k < |GroupSpans(words)| && GroupSpans(words)[k].hi == i + 1
  {
    var spans := GroupSpans(words);
    GroupSpansTile(words);
    GroupingsClosed(words, |words|);
    var k := Locate(spans, i);
    AllClosedAt(words, spans, k);
    ClosedEnding(words, spans[k], i);
  }

  /** Splitting the closed segments' texts on whitespace gives the words back, up to the open segment. */
  lemma {:induction false} GroupingsKeepWords(tokens: seq<string>, words: seq<Word>, n: nat)
    requires |tokens| == |words| && n <= |words|
    ensures IsWordList(tokens) ==>
      WordsOfAll(Texts(CuesOf(tokens, words, Groupings(words, n).spans))) == tokens[..Groupings(words, n).lo]
  {
    if n == 0 {
      GroupingsKeepWordsNone(tokens, words);
    } else {
      GroupingsKeepWords(tokens, words, n - 1);
      GroupingsKeepWordsStep(tokens, words, n);
    }
  }

  lemma GroupingsKeepWordsNone(tokens: seq<string>, words: seq<Word>)
    requires |tokens| == |words|
    ensures WordsOfAll(Texts(CuesOf(tokens, words, Groupings(words, 0).spans))) == tokens[..Groupings(words, 0).lo]
  {
    assert CuesOf(tokens, words, []) == [];
  }

  lemma GroupingsKeepWordsStep(tokens: seq<string>, words: seq<Word>, n: nat)
    requires |tokens| == |words| && 0 < n <= |words|
    ensures IsWordList(tokens) && WordsOfAll(Texts(CuesOf(tokens, words, Groupings(words, n - 1).spans))) == tokens[..Groupings(words, n - 1).lo] ==>
            WordsOfAll(Texts(CuesOf(tokens, words, Groupings(words, n).spans))) == tokens[..Groupings(words, n).lo]
  {
    if IsWordList(tokens) {
      GroupingsTiles(words, n - 1);
      GroupAfterKeepsWords(Groupings(words, n - 1), tokens, words, n);
    }
  }

  /** The pass over word `n - 1` keeps the closed segments giving back the words before the open one. */
  lemma GroupAfterKeepsWords(c: Cut, tokens: seq<string>, words: seq<Word>, n: nat)
    requires |tokens| == |words| && IsWordList(tokens)
    requires 0 < n <= |words| && c.lo <= n - 1 && Tiles(c.spans, c.lo)
    ensures var d := GroupAfter(c, words, n - 1);
      WordsOfAll(Texts(CuesOf(tokens, words, c.spans))) == tokens[..c.lo] ==>
      WordsOfAll(Texts(CuesOf(tokens, words, d.spans))) == tokens[..d.lo]
  {
    GroupAfterTiles(c, words, n - 1);
    var d := GroupAfter(c, words, n - 1);
    if d != c && WordsOfAll(Texts(CuesOf(tokens, words, c.spans))) == tokens[..c.lo] {
      var s := d.spans[|d.spans| - 1];
      assert d.spans == c.spans + [s] && s.lo == c.lo && s.hi == d.lo;
      KeepTokensSnoc(tokens, words, c.spans, s);
    }
  }

  /** Every word lands in exactly one segment, in order, when the words are whitespace-free tokens. */
  lemma RegroupedKeepsWords(words: seq<Word>)
    requires IsWordList(Spoken(words))
    ensures WordsOfAll(Texts(Regrouped(words))) == Spoken(words)
  {
    GroupingsKeepWords(Spoken(words), words, |words|);
    GroupSpansTile(words);
    assert Spoken(words)[..|words|] == Spoken(words);
  }

  /**
    Whatever the words, segment `k` holds exactly the words of its span joined by spaces, from the
    first word's start to the last word's end, and the spans tile the words in order.
  */
  lemma RegroupedSegments(words: seq<Word>)
    ensures var spans := GroupSpans(words); var segments := Regrouped(words);
      && Tiles(spans, |words|)
      && |segments| == |spans|
      && (segments == [] <==> words == [])
      && (forall k :: 0 <= k < |spans| ==>
            segments[k] == Segment(Join(" ", Spoken(words)[spans[k].lo..spans[k].hi]),
                                   words[spans[k].lo].start, words[spans[k].hi - 1].end))
      && (segments != [] ==> segments[0].start == words[0].start && segments[|segments| - 1].end == words[|words| - 1].end)
  {
    GroupSpansTile(words);
  }
}
