/**
  Groups of consecutive tokens, as both segmenters in app.py build them: a token sequence is cut
  into spans `lo..hi`, each closed for a reason, and each span becomes one cue whose text is its
  tokens joined by single spaces and whose times run from its first token's start to its last
  token's end.
*/
module Spans {
  import opened Text
  import opened Transcripts

  /**
    Why a group was closed. The chunker closes on `SentenceEnd`, `LastToken` and `WidthOverflow`;
    the words-only regrouping on `LastToken`, `EndingInside`, `BeforeSentenceStart`, `Pause` and `WordCap`.
  */
  datatype Reason = SentenceEnd | LastToken | WidthOverflow | EndingInside | BeforeSentenceStart | Pause | WordCap

  /** The tokens `lo..hi` of a group and the rule that closed it. */
  datatype Span = Span(lo: nat, hi: nat, reason: Reason)

  /** The groups closed so far and where the open one starts. */
  datatype Cut = Cut(spans: seq<Span>, lo: nat)

  /** The spans follow each other from token 0 to `upTo`, none of them empty. */
  predicate Tiles(spans: seq<Span>, upTo: nat) {
    && (if spans == [] then upTo == 0 else spans[0].lo == 0 && spans[|spans| - 1].hi == upTo)
    && (forall k :: 0 <= k < |spans| ==> spans[k].lo < spans[k].hi <= upTo)
    && (forall k :: 0 <= k < |spans| - 1 ==> spans[k].hi == spans[k + 1].lo)
  }

  /** Every span is non-empty and ends by `upTo`. */
  predicate Bounded(spans: seq<Span>, upTo: nat) {
    forall k :: 0 <= k < |spans| ==> spans[k].lo < spans[k].hi <= upTo
  }

  /** A group's cue: its tokens joined by spaces, from its first token's start to its last token's end. */
  function Cue(tokens: seq<string>, timings: seq<Word>, s: Span): Segment
    requires s.lo < s.hi <= |tokens| == |timings|
  {
    Segment(Join(" ", tokens[s.lo..s.hi]), timings[s.lo].start, timings[s.hi - 1].end)
  }

  function CuesOf(tokens: seq<string>, timings: seq<Word>, spans: seq<Span>): (cues: seq<Segment>)
    requires |tokens| == |timings|
    requires forall k :: 0 <= k < |spans| ==> spans[k].lo < spans[k].hi <= |tokens|
    ensures |cues| == |spans|
    ensures forall k {:trigger cues[k]} :: 0 <= k < |spans| ==> cues[k] == Cue(tokens, timings, spans[k])
  {
    seq(|spans|, k requires 0 <= k < |spans| => Cue(tokens, timings, spans[k]))
  }

  lemma SliceSnoc<T>(s: seq<T>, lo: nat, i: nat)
    requires lo <= i < |s|
    ensures s[lo..i] + [s[i]] == s[lo..i + 1]
  {
  }

  lemma SliceOne<T>(s: seq<T>, i: nat)
    requires i < |s|
    ensures s[i..i + 1] == [s[i]]
  {
  }

  lemma SliceEmpty<T>(s: seq<T>, i: nat)
    requires i <= |s|
    ensures s[i..i] == []
  {
  }

  lemma SliceDrop<T>(s: seq<T>, lo: nat, i: nat)
    requires lo <= i < |s|
    ensures s[lo..i + 1][..i - lo] == s[lo..i]
  {
  }

  /** The cue the loop builds from the open group `lo..hi`. */
  lemma CueOfCurrent(tokens: seq<string>, timings: seq<Word>, s: Span, currentTimings: seq<Word>)
    requires s.lo < s.hi <= |tokens| == |timings| && currentTimings == timings[s.lo..s.hi]
    ensures Cue(tokens, timings, s)
            == Segment(Join(" ", tokens[s.lo..s.hi]), currentTimings[0].start, currentTimings[|currentTimings| - 1].end)
  {
    assert currentTimings[0] == timings[s.lo] && currentTimings[|currentTimings| - 1] == timings[s.hi - 1];
  }

  lemma CuesSnoc(tokens: seq<string>, timings: seq<Word>, spans: seq<Span>, s: Span)
    requires |tokens| == |timings|
    requires forall k :: 0 <= k < |spans| ==> spans[k].lo < spans[k].hi <= |tokens|
    requires s.lo < s.hi <= |tokens|
    ensures CuesOf(tokens, timings, spans + [s]) == CuesOf(tokens, timings, spans) + [Cue(tokens, timings, s)]
  {
  }

  /** A position covered by a chain of adjoining spans lies in one of them. */
  lemma {:induction false} Locate(spans: seq<Span>, i: nat) returns (k: nat)
    requires spans != [] && spans[0].lo <= i < spans[|spans| - 1].hi
    requires forall k :: 0 <= k < |spans| - 1 ==> spans[k].hi == spans[k + 1].lo
    ensures k < |spans| && spans[k].lo <= i < spans[k].hi
    decreases |spans|
  {
    var last := |spans| - 1;
    if spans[last].lo <= i {
      k := last;
    } else {
      assert spans[last - 1].hi == spans[last].lo;
      k := Locate(spans[..last], i);
    }
  }

  /** Closing span `s` after cues that give back the tokens before it gives back the tokens up to its end. */
  lemma KeepTokensSnoc(tokens: seq<string>, timings: seq<Word>, spans: seq<Span>, s: Span)
    requires |tokens| == |timings| && IsWordList(tokens)
    requires forall k :: 0 <= k < |spans| ==> spans[k].lo < spans[k].hi <= |tokens|
    requires s.lo < s.hi <= |tokens|
    requires WordsOfAll(Texts(CuesOf(tokens, timings, spans))) == tokens[..s.lo]
    ensures WordsOfAll(Texts(CuesOf(tokens, timings, spans + [s]))) == tokens[..s.hi]
  {
    var piece := tokens[s.lo..s.hi];
    var before := CuesOf(tokens, timings, spans);
    CuesSnoc(tokens, timings, spans, s);
    TextsAppend(before, [Cue(tokens, timings, s)]);
    assert Texts([Cue(tokens, timings, s)]) == [Join(" ", piece)];
    WordsOfAllAppend(Texts(before), [Join(" ", piece)]);
    assert WordsOfAll([Join(" ", piece)]) == Words(Join(" ", piece)) + WordsOfAll([]);
    assert IsWordList(piece) by {
      assert forall j :: 0 <= j < |piece| ==> piece[j] == tokens[s.lo + j];
    }
    WordsOfJoin(piece);
    assert tokens[..s.lo] + piece == tokens[..s.hi];
  }
}
