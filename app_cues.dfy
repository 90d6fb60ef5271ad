/**
  `process_transcript_segments` of app.py: every segment is cut at sentence punctuation, every
  piece is packed under a width, and the segment's duration is shared out evenly, first between
  the pieces and then between the chunks of each piece.
*/
module TranscriptProcessing {
  import opened Text
  import opened Transcripts
  import opened PunctuationSplit
  import opened LengthSplit

  /**
    The cues of piece `i` out of `count` pieces of `seg`: the piece gets `1/count` of the segment's
    duration, starts after the `i` pieces before it, and shares its time evenly between its chunks.
  */
  function PieceCues(seg: Segment, count: nat, i: nat, chunks: seq<string>): seq<Segment>
  {
    var segmentDuration := Share(seg.end - seg.start, count);
    EvenSplit(chunks, Offset(seg.start, segmentDuration, i), segmentDuration)
  }

  /** The pieces `split_text_at_punctuation` cuts a segment's stripped text into. */
  function SegmentPieces(seg: Segment): seq<string>
  {
    PunctuationPieces(Strip(seg.text))
  }

  /** The chunks `split_text_by_length` packs each piece into. */
  function ChunkLists(pieces: seq<string>, maxChars: int): (lists: seq<seq<string>>)
    ensures |lists| == |pieces|
  {
    seq(|pieces|, i requires 0 <= i < |pieces| => LengthChunks(pieces[i], maxChars))
  }

  /** The cues of the first `n` pieces of a segment, given the chunks of every piece. */
  function PiecesCues(seg: Segment, lists: seq<seq<string>>, n: nat): seq<Segment>
    requires n <= |lists|
  {
    if n == 0 then [] else PiecesCues(seg, lists, n - 1) + PieceCues(seg, |lists|, n - 1, lists[n - 1])
  }

  function SegmentCues(seg: Segment, maxChars: int): seq<Segment>
  {
    var lists := ChunkLists(SegmentPieces(seg), maxChars);
    PiecesCues(seg, lists, |lists|)
  }

  /** What `process_transcript_segments` returns: the cues of every segment, in order. */
  function ProcessedCues(segments: seq<Segment>, maxChars: int): seq<Segment>
  {
    if segments == [] then []
    else ProcessedCues(segments[..|segments| - 1], maxChars) + SegmentCues(segments[|segments| - 1], maxChars)
  }

  method ProcessTranscriptSegments(segments: seq<Segment>, maxChars: int) returns (processed: seq<Segment>)
    ensures processed == ProcessedCues(segments, maxChars)
  {
    processed := [];
    var k := 0;
    while k < |segments|
      invariant 0 <= k <= |segments|
      invariant processed == ProcessedCues(segments[..k], maxChars)
    {
      assert segments[..k + 1][..k] == segments[..k];
      var cues := SegmentSubcues(segments[k], maxChars);
      processed := processed + cues;
      k := k + 1;
    }
    assert segments[..k] == segments;
  }

  /** The body of the loop over segments: the cues of one segment, piece by piece and chunk by chunk. */
  method SegmentSubcues(segment: Segment, maxChars: int) returns (cues: seq<Segment>)
    ensures cues == SegmentCues(segment, maxChars)
  {
    cues := [];
    var text := Strip(segment.text);
    var startTime := segment.start;
    var endTime := segment.end;
    var duration := endTime - startTime;
    var punctuationSplits := SplitTextAtPunctuation(text);
    cues := PiecesEntries(segment, punctuationSplits, maxChars, duration);
  }

  /** The loop over the pieces of a segment's text, in order. */
  method PiecesEntries(segment: Segment, punctuationSplits: seq<string>, maxChars: int, duration: real)
    returns (cues: seq<Segment>)
    requires duration == segment.end - segment.start
    ensures cues == PiecesCues(segment, ChunkLists(punctuationSplits, maxChars), |punctuationSplits|)
  {
    cues := [];
    ghost var lists := ChunkLists(punctuationSplits, maxChars);
    var i := 0;
    while i < |punctuationSplits|
      invariant 0 <= i <= |punctuationSplits|
      invariant cues == PiecesCues(segment, lists, i)
    {
      cues := PieceEntries(segment, punctuationSplits, lists, i, maxChars, duration, cues);
      i := i + 1;
    }
  }

  /** One pass of the loop over the pieces: piece `i` is packed into chunks, which share its part of the duration. */
  method PieceEntries(segment: Segment, punctuationSplits: seq<string>, ghost lists: seq<seq<string>>, i: nat,
                      maxChars: int, duration: real, cues: seq<Segment>) returns (cues': seq<Segment>)
    requires i < |punctuationSplits| && duration == segment.end - segment.start
    requires lists == ChunkLists(punctuationSplits, maxChars)
    ensures cues' == cues + PieceCues(segment, |lists|, i, lists[i])
  {
    var lengthSplits := SplitTextByLength(punctuationSplits[i], maxChars);
    var segmentDuration := duration / |punctuationSplits| as real;
    cues' := PieceSubcues(segment, |punctuationSplits|, i, lengthSplits, duration, segmentDuration, cues);
  }

  /** The inner loop: the sub-cues of piece `i` of `count`, each an equal share of the piece's share. */
  method PieceSubcues(segment: Segment, count: nat, i: nat, lengthSplits: seq<string>, duration: real,
                      segmentDuration: real, cues: seq<Segment>) returns (cues': seq<Segment>)
    requires count > 0 && duration == segment.end - segment.start && segmentDuration == duration / count as real
    ensures cues' == cues + PieceCues(segment, count, i, lengthSplits)
  {
    var totalSplits := |lengthSplits|;
    ghost var piece := PieceCues(segment, count, i, lengthSplits);
    cues' := cues;
    var j := 0;
    while j < totalSplits
      invariant 0 <= j <= totalSplits
      invariant cues' == cues + piece[..j]
    {
      var subcue := Subcue(segment, count, i, lengthSplits, j, duration, segmentDuration);
      AppendNext(cues, piece, j, subcue);
      cues' := cues' + [subcue];
      j := j + 1;
    }
    assert piece[..j] == piece;
  }

  /** Sub-cue `j` of piece `i`: it starts `i` piece shares and `j` sub-shares after the segment's start. */
  method Subcue(segment: Segment, count: nat, i: nat, lengthSplits: seq<string>, j: nat, duration: real,
                segmentDuration: real) returns (subcue: Segment)
    requires count > 0 && j < |lengthSplits|
    requires duration == segment.end - segment.start && segmentDuration == duration / count as real
    ensures subcue == PieceCues(segment, count, i, lengthSplits)[j]
  {
    var startTime := segment.start;
    var subsegmentDuration := segmentDuration / |lengthSplits| as real;
    var subsegmentStart := startTime + (i as real * segmentDuration) + (j as real * subsegmentDuration);
    var subsegmentEnd := subsegmentStart + subsegmentDuration;
    PieceCueAt(segment, count, i, lengthSplits, j, startTime, duration,
               segmentDuration, subsegmentDuration, subsegmentStart, subsegmentEnd);
    subcue := Segment(lengthSplits[j], subsegmentStart, subsegmentEnd);
  }

  /** The start `process_transcript_segments` computes for sub-cue `j` of piece `i`, as offsets. */
  lemma {:induction false} SubsegmentStart(startTime: real, segmentDuration: real, i: nat, subsegmentDuration: real, j: nat)
    ensures Offset(Offset(startTime, segmentDuration, i), subsegmentDuration, j)
            == startTime + (i as real * segmentDuration) + (j as real * subsegmentDuration)
  {
    OffsetIsProduct(startTime, segmentDuration, i);
    OffsetIsProduct(Offset(startTime, segmentDuration, i), subsegmentDuration, j);
  }

  /**
    Sub-cue `j` of piece `i` starts `i` piece shares and `j` chunk shares after the segment's start
    and lasts one chunk share, where the piece share is the duration over the number of pieces and
    the chunk share is the piece share over the number of chunks.
  */
  lemma PieceCueTiming(seg: Segment, count: nat, i: nat, chunks: seq<string>, j: nat)
    requires count > 0 && j < |chunks|
    ensures var segmentDuration := (seg.end - seg.start) / count as real;
      var subsegmentDuration := segmentDuration / |chunks| as real;
      var subsegmentStart := seg.start + (i as real * segmentDuration) + (j as real * subsegmentDuration);
      PieceCues(seg, count, i, chunks)[j] == Segment(chunks[j], subsegmentStart, subsegmentStart + subsegmentDuration)
  {
    var segmentDuration := (seg.end - seg.start) / count as real;
    var subsegmentDuration := segmentDuration / |chunks| as real;
    var subsegmentStart := seg.start + (i as real * segmentDuration) + (j as real * subsegmentDuration);
    PieceCueAt(seg, count, i, chunks, j, seg.start, seg.end - seg.start, segmentDuration, subsegmentDuration,
               subsegmentStart, subsegmentStart + subsegmentDuration);
  }

  /** `PieceCueTiming` over the intermediate values the loop computes. */
  lemma PieceCueAt(seg: Segment, count: nat, i: nat, chunks: seq<string>, j: nat, startTime: real, duration: real,
                   segmentDuration: real, subsegmentDuration: real, subsegmentStart: real, subsegmentEnd: real)
    requires count > 0 && j < |chunks|
    requires startTime == seg.start && duration == seg.end - seg.start
    requires segmentDuration == duration / count as real
    requires subsegmentDuration == segmentDuration / |chunks| as real
    requires subsegmentStart == startTime + (i as real * segmentDuration) + (j as real * subsegmentDuration)
    requires subsegmentEnd == subsegmentStart + subsegmentDuration
    ensures PieceCues(seg, count, i, chunks)[j] == Segment(chunks[j], subsegmentStart, subsegmentEnd)
  {
    assert Share(seg.end - seg.start, count) == segmentDuration;
    assert Share(segmentDuration, |chunks|) == subsegmentDuration;
    var from := Offset(seg.start, segmentDuration, i);
    EvenSplitFromAt(chunks, 0, from, subsegmentDuration, j);
    SubsegmentStart(seg.start, segmentDuration, i, subsegmentDuration, j);
  }

  /** The chunk share is the segment's duration over the number of pieces times the number of chunks. */
  lemma ShareOfShare(d: real, p: nat, l: nat)
    requires p > 0 && l > 0
    ensures Share(Share(d, p), l) == d / (p * l) as real
  {
    assert (p * l) as real == p as real * l as real;
  }

  /** The cues of one piece follow each other, from the piece's start to its end, and carry its chunks. */
  lemma {:induction false} PieceCuesSpan(seg: Segment, count: nat, i: nat, chunks: seq<string>)
    requires chunks != []
    ensures var cues, share := PieceCues(seg, count, i, chunks), Share(seg.end - seg.start, count);
      Contiguous(cues)
      && cues[0].start == Offset(seg.start, share, i)
      && cues[|cues| - 1].end == Offset(seg.start, share, i + 1)
      && Texts(cues) == chunks
  {
    var share := Share(seg.end - seg.start, count);
    EvenSplitSpan(chunks, Offset(seg.start, share, i), share);
  }

  /** The first `n` pieces produce contiguous cues from the segment's start to the end of the `n`-th piece share. */
  lemma {:induction false} PiecesCuesSpan(seg: Segment, lists: seq<seq<string>>, n: nat)
    requires 0 < n <= |lists|
    requires forall k :: 0 <= k < |lists| ==> lists[k] != []
    ensures var cues, share := PiecesCues(seg, lists, n), Share(seg.end - seg.start, |lists|);
      cues != [] && Contiguous(cues)
      && cues[0].start == seg.start
      && cues[|cues| - 1].end == Offset(seg.start, share, n)
  {
    var last := PieceCues(seg, |lists|, n - 1, lists[n - 1]);
    PieceCuesSpan(seg, |lists|, n - 1, lists[n - 1]);
    if n == 1 {
      assert PiecesCues(seg, lists, n) == last;
    } else {
      var before := PiecesCues(seg, lists, n - 1);
      PiecesCuesSpan(seg, lists, n - 1);
      ContiguousAppend(before, last);
    }
  }

  /** The cues of the first `n` pieces carry the chunks of those pieces, in order. */
  lemma {:induction false} PiecesCuesTexts(seg: Segment, lists: seq<seq<string>>, n: nat)
    requires n <= |lists|
    ensures Texts(PiecesCues(seg, lists, n)) == Flatten(lists[..n])
  {
    if n == 0 {
      assert Texts([]) == [];
    } else {
      var before := PiecesCues(seg, lists, n - 1);
      var last := PieceCues(seg, |lists|, n - 1, lists[n - 1]);
      if lists[n - 1] != [] {
        PieceCuesSpan(seg, |lists|, n - 1, lists[n - 1]);
      }
      assert Texts(last) == lists[n - 1];
      PiecesCuesTexts(seg, lists, n - 1);
      TextsAppend(before, last);
      assert lists[..n] == lists[..n - 1] + [lists[n - 1]];
      FlattenAppend(lists[..n - 1], [lists[n - 1]]);
      assert Flatten([lists[n - 1]]) == lists[n - 1] + Flatten([]);
    }
  }

  /** Packing every piece keeps the tokens of the pieces, in order. */
  lemma {:induction false} ChunkListsWords(pieces: seq<string>, maxChars: int)
    ensures WordsOfAll(Flatten(ChunkLists(pieces, maxChars))) == WordsOfAll(pieces)
    decreases |pieces|
  {
    var lists := ChunkLists(pieces, maxChars);
    if pieces != [] {
      LengthChunksShape(pieces[0], maxChars);
      ChunkListsWords(pieces[1..], maxChars);
      assert lists[1..] == ChunkLists(pieces[1..], maxChars);
      WordsOfAllAppend(lists[0], Flatten(lists[1..]));
    }
  }

  /** The pieces of a stripped text are its tokens' non-empty carriers: none of them is token-free. */
  lemma PiecesHaveWords(s: string)
    ensures forall p :: p in PunctuationPieces(s) ==> Words(p) != []
  {
    PunctuationPiecesShape(s);
    forall p | p in PunctuationPieces(s)
      ensures Words(p) != []
    {
      StripEmptyIffNoWords(p);
      StripOfStripped(p);
    }
  }

  /** Every piece with tokens is packed into at least one chunk. */
  lemma ChunkListsNonEmpty(pieces: seq<string>, maxChars: int)
    requires forall p :: p in pieces ==> Words(p) != []
    ensures forall k :: 0 <= k < |pieces| ==> ChunkLists(pieces, maxChars)[k] != []
  {
    forall k | 0 <= k < |pieces|
      ensures ChunkLists(pieces, maxChars)[k] != []
    {
      assert pieces[k] in pieces;
      LengthChunksShape(pieces[k], maxChars);
    }
  }

  /** A segment without tokens yields no cues. */
  lemma SegmentCuesEmpty(seg: Segment, maxChars: int)
    requires Words(seg.text) == []
    ensures SegmentCues(seg, maxChars) == []
  {
    var pieces := SegmentPieces(seg);
    PunctuationPiecesShape(Strip(seg.text));
    PiecesHaveWords(Strip(seg.text));
    WordsOfStrip(seg.text);
    NoWordsNoPieces(pieces);
  }

  /** A list of pieces that all have tokens has tokens exactly when it is not empty. */
  lemma {:induction false} NoWordsNoPieces(pieces: seq<string>)
    ensures (forall p :: p in pieces ==> Words(p) != []) ==> (WordsOfAll(pieces) == [] <==> pieces == [])
  {
    if pieces != [] {
      assert pieces[0] in pieces;
      assert WordsOfAll(pieces) == Words(pieces[0]) + WordsOfAll(pieces[1..]);
    }
  }

  /**
    The cues of a segment with tokens are contiguous, the first starting at the segment's start and
    the last ending at its end.
  */
  lemma SegmentCuesSpan(seg: Segment, maxChars: int)
    requires Words(seg.text) != []
    ensures var cues := SegmentCues(seg, maxChars);
      cues != [] && Contiguous(cues) && cues[0].start == seg.start && cues[|cues| - 1].end == seg.end
  {
    SegmentListsNonEmpty(seg, maxChars);
    ListsCuesSpan(seg, ChunkLists(SegmentPieces(seg), maxChars));
  }

  /** The cues of pieces that each have a chunk run from the segment's start to its end, one after the other. */
  lemma ListsCuesSpan(seg: Segment, lists: seq<seq<string>>)
    requires lists != [] && forall k :: 0 <= k < |lists| ==> lists[k] != []
    ensures var cues := PiecesCues(seg, lists, |lists|);
      cues != [] && Contiguous(cues) && cues[0].start == seg.start && cues[|cues| - 1].end == seg.end
  {
    PiecesCuesSpan(seg, lists, |lists|);
    WholeOffset(seg.start, seg.end - seg.start, |lists|);
  }

  /** A segment with tokens has pieces, and every piece is packed into at least one chunk. */
  lemma SegmentListsNonEmpty(seg: Segment, maxChars: int)
    requires Words(seg.text) != []
    ensures var lists := ChunkLists(SegmentPieces(seg), maxChars);
      lists != [] && forall k :: 0 <= k < |lists| ==> lists[k] != []
  {
    var pieces := SegmentPieces(seg);
    PunctuationPiecesShape(Strip(seg.text));
    PiecesHaveWords(Strip(seg.text));
    WordsOfStrip(seg.text);
    NoWordsNoPieces(pieces);
    ChunkListsNonEmpty(pieces, maxChars);
  }

  /** The cues of a segment carry exactly the segment's tokens, in order. */
  lemma SegmentCuesWords(seg: Segment, maxChars: int)
    ensures WordsOfAll(Texts(SegmentCues(seg, maxChars))) == Words(seg.text)
  {
    var pieces := SegmentPieces(seg);
    ListsCuesTexts(seg, ChunkLists(pieces, maxChars));
    ChunkListsWords(pieces, maxChars);
    SegmentPiecesWords(seg);
  }

  /** The cues of all the pieces carry the chunks, in order. */
  lemma ListsCuesTexts(seg: Segment, lists: seq<seq<string>>)
    ensures Texts(PiecesCues(seg, lists, |lists|)) == Flatten(lists)
  {
    PiecesCuesTexts(seg, lists, |lists|);
    assert lists[..|lists|] == lists;
  }

  /** The pieces of a segment carry its tokens, in order. */
  lemma SegmentPiecesWords(seg: Segment)
    ensures WordsOfAll(SegmentPieces(seg)) == Words(seg.text)
  {
    PunctuationPiecesShape(Strip(seg.text));
    WordsOfStrip(seg.text);
  }
}

/**
  `generate_srt` and `generate_raw_srt` of app.py. The app's own `format_timestamp` (a `timedelta`
  rendered with floating-point formatting) is a parameter `fmt`.
*/
module AppSrt {
  import opened Text
  import opened Transcripts

  /** The four lines of one cue: its number, `start --> end`, its text and a blank line. */
  function CueLines(index: nat, cue: Segment, fmt: real -> string): seq<string>
  {
    [NatToString(index), fmt(cue.start) + " --> " + fmt(cue.end), cue.text, ""]
  }

  /** The lines of `cues` numbered from `first`. */
  function SrtLines(cues: seq<Segment>, fmt: real -> string, first: nat): seq<string>
  {
    if cues == [] then []
    else SrtLines(cues[..|cues| - 1], fmt, first) + CueLines(first + |cues| - 1, cues[|cues| - 1], fmt)
  }

  /** Four successive appends add the four lines in order. */
  lemma AppendFour(content: seq<string>, a: string, b: string, c: string, d: string)
    ensures content + [a] + [b] + [c] + [d] == content + [a, b, c, d]
  {
  }

  lemma {:induction false} SrtLinesSnoc(cues: seq<Segment>, cue: Segment, fmt: real -> string, first: nat)
    ensures SrtLines(cues + [cue], fmt, first) == SrtLines(cues, fmt, first) + CueLines(first + |cues|, cue, fmt)
  {
    assert (cues + [cue])[..|cues|] == cues;
  }

  method GenerateSrt(segments: seq<Segment>, fmt: real -> string) returns (srt: string)
    ensures srt == Join("\n", SrtLines(segments, fmt, 1))
  {
    var srtContent: seq<string> := [];
    var i := 0;
    while i < |segments|
      invariant 0 <= i <= |segments|
      invariant srtContent == SrtLines(segments[..i], fmt, 1)
    {
      var segment := segments[i];
      var timeLine := fmt(segment.start) + " --> " + fmt(segment.end);
      AppendFour(srtContent, NatToString(i + 1), timeLine, segment.text, "");
      SrtLinesSnoc(segments[..i], segment, fmt, 1);
      assert segments[..i + 1] == segments[..i] + [segment];
      srtContent := srtContent + [NatToString(i + 1)];
      srtContent := srtContent + [timeLine];
      srtContent := srtContent + [segment.text];
      srtContent := srtContent + [""];
      i := i + 1;
    }
    assert segments[..i] == segments;
    srt := Join("\n", srtContent);
  }

  /**
    Cue `k` occupies lines `4k` to `4k+3`: its number `first + k`, its time line, its text and a
    blank line; so the numbers run consecutively from `first`.
  */
  lemma {:induction false} SrtLinesShape(cues: seq<Segment>, fmt: real -> string, first: nat)
    ensures |SrtLines(cues, fmt, first)| == 4 * |cues|
    ensures forall k :: 0 <= k < |cues| ==>
      SrtLines(cues, fmt, first)[4 * k..4 * k + 4] == CueLines(first + k, cues[k], fmt)
  {
    if cues != [] {
      var n := |cues|;
      var lines := SrtLines(cues, fmt, first);
      var before := SrtLines(cues[..n - 1], fmt, first);
      SrtLinesShape(cues[..n - 1], fmt, first);
      forall k | 0 <= k < n
        ensures lines[4 * k..4 * k + 4] == CueLines(first + k, cues[k], fmt)
      {
        if k < n - 1 {
          assert lines[4 * k..4 * k + 4] == before[4 * k..4 * k + 4];
          assert cues[..n - 1][k] == cues[k];
        }
      }
    }
  }

  /** The cue of every API word: its own text and timestamps. */
  function WordCues(words: seq<Word>): (cues: seq<Segment>)
    ensures |cues| == |words|
  {
    seq(|words|, k requires 0 <= k < |words| => Segment(words[k].word, words[k].start, words[k].end))
  }

  /** A segment's tokens, sharing its duration evenly; nothing for a segment without tokens. */
  function EvenCues(seg: Segment): seq<Segment>
  {
    EvenSplit(Words(seg.text), seg.start, seg.end - seg.start)
  }

  function EvenCuesOf(segments: seq<Segment>): seq<Segment>
  {
    if segments == [] then []
    else EvenCuesOf(segments[..|segments| - 1]) + EvenCues(segments[|segments| - 1])
  }

  /** The cues `generate_raw_srt` emits: one per API word when there are any, otherwise one per segment token. */
  function RawCues(transcript: Transcript): seq<Segment>
  {
    if |transcript.words| > 0 then WordCues(transcript.words) else EvenCuesOf(transcript.segments)
  }

  method GenerateRawSrt(transcript: Transcript, fmt: real -> string) returns (srt: string)
    ensures srt == Join("\n", SrtLines(RawCues(transcript), fmt, 1))
  {
    var srtContent: seq<string> := [];
    var segmentNumber := 1;
    if |transcript.words| > 0 {
      srtContent, segmentNumber := WordEntries(transcript.words, fmt);
    } else {
      var segments := transcript.segments;
      if |segments| > 0 {
        var k := 0;
        while k < |segments|
          invariant 0 <= k <= |segments|
          invariant srtContent == SrtLines(EvenCuesOf(segments[..k]), fmt, 1)
          invariant segmentNumber == 1 + |EvenCuesOf(segments[..k])|
        {
          var segment := segments[k];
          assert segments[..k + 1][..k] == segments[..k];
          assert EvenCuesOf(segments[..k + 1]) == EvenCuesOf(segments[..k]) + EvenCues(segment);
          var words := Words(segment.text);
          if words == [] {
            assert EvenCues(segment) == [];
            assert EvenCuesOf(segments[..k]) + [] == EvenCuesOf(segments[..k]);
            k := k + 1;
            continue;
          }
          srtContent, segmentNumber := EvenWordEntries(segment, words, fmt, srtContent, EvenCuesOf(segments[..k]), segmentNumber);
          k := k + 1;
        }
        assert segments[..k] == segments;
      } else {
        assert EvenCuesOf(segments) == [];
      }
    }
    srt := Join("\n", srtContent);
  }

  /** The loop over API words: one numbered entry per word, with the word's own times. */
  method WordEntries(words: seq<Word>, fmt: real -> string) returns (srtContent: seq<string>, segmentNumber: nat)
    ensures srtContent == SrtLines(WordCues(words), fmt, 1)
    ensures segmentNumber == 1 + |words|
  {
    srtContent, segmentNumber := [], 1;
    ghost var cues := WordCues(words);
    var i := 0;
    while i < |words|
      invariant 0 <= i <= |words|
      invariant segmentNumber == 1 + i
      invariant srtContent == SrtLines(cues[..i], fmt, 1)
    {
      var wordInfo := words[i];
      var timeLine := fmt(wordInfo.start) + " --> " + fmt(wordInfo.end);
      assert cues[i] == Segment(wordInfo.word, wordInfo.start, wordInfo.end);
      AppendFour(srtContent, NatToString(segmentNumber), timeLine, wordInfo.word, "");
      SrtLinesSnoc(cues[..i], cues[i], fmt, 1);
      assert cues[..i + 1] == cues[..i] + [cues[i]];
      srtContent := srtContent + [NatToString(segmentNumber)];
      srtContent := srtContent + [timeLine];
      srtContent := srtContent + [wordInfo.word];
      srtContent := srtContent + [""];
      segmentNumber := segmentNumber + 1;
      i := i + 1;
    }
    assert cues[..i] == cues;
  }

  /** The loop over the tokens of one segment: each gets an equal share of the segment's duration. */
  method EvenWordEntries(segment: Segment, words: seq<string>, fmt: real -> string, content: seq<string>,
                         ghost prior: seq<Segment>, number: nat)
    returns (srtContent: seq<string>, segmentNumber: nat)
    requires words != []
    requires content == SrtLines(prior, fmt, 1) && number == 1 + |prior|
    ensures srtContent == SrtLines(prior + EvenSplit(words, segment.start, segment.end - segment.start), fmt, 1)
    ensures segmentNumber == 1 + |prior| + |words|
  {
    srtContent, segmentNumber := content, number;
    ghost var cues := EvenSplit(words, segment.start, segment.end - segment.start);
    var duration := segment.end - segment.start;
    var wordDuration := duration / |words| as real;
    assert prior + cues[..0] == prior;
    var i := 0;
    while i < |words|
      invariant 0 <= i <= |words|
      invariant segmentNumber == 1 + |prior| + i
      invariant srtContent == SrtLines(prior + cues[..i], fmt, 1)
    {
      srtContent, segmentNumber := EvenWordEntry(segment, words, fmt, i, wordDuration, srtContent, prior, cues, segmentNumber);
      i := i + 1;
    }
    assert cues[..i] == cues;
  }

  /** One pass of the loop over a segment's tokens: the entry of token `i`, which starts `i` word durations in. */
  method EvenWordEntry(segment: Segment, words: seq<string>, fmt: real -> string, i: nat, wordDuration: real,
                       content: seq<string>, ghost prior: seq<Segment>, ghost cues: seq<Segment>, number: nat)
    returns (srtContent: seq<string>, segmentNumber: nat)
    requires i < |words| && wordDuration == (segment.end - segment.start) / |words| as real
    requires cues == EvenSplit(words, segment.start, segment.end - segment.start)
    requires content == SrtLines(prior + cues[..i], fmt, 1) && number == 1 + |prior| + i
    ensures srtContent == SrtLines(prior + cues[..i + 1], fmt, 1)
    ensures segmentNumber == number + 1
  {
    var wordStart := segment.start + (i as real * wordDuration);
    var wordEnd := wordStart + wordDuration;
    var timeLine := fmt(wordStart) + " --> " + fmt(wordEnd);
    EvenSplitAt(words, segment.start, segment.end - segment.start, i, wordDuration, wordStart, wordEnd);
    assert CueLines(number, cues[i], fmt) == [NatToString(number), timeLine, words[i], ""];
    AppendFour(content, NatToString(number), timeLine, words[i], "");
    SrtLinesNext(prior, cues, i, fmt);
    srtContent := content + [NatToString(number)];
    srtContent := srtContent + [timeLine];
    srtContent := srtContent + [words[i]];
    srtContent := srtContent + [""];
    segmentNumber := number + 1;
  }

  /** Appending the entry of cue `i` turns the lines of a prefix into those of the next prefix. */
  lemma {:induction false} SrtLinesNext(prior: seq<Segment>, cues: seq<Segment>, i: nat, fmt: real -> string)
    requires i < |cues|
    ensures SrtLines(prior + cues[..i], fmt, 1) + CueLines(1 + |prior| + i, cues[i], fmt)
            == SrtLines(prior + cues[..i + 1], fmt, 1)
  {
    var before, after := prior + cues[..i], prior + cues[..i + 1];
    AppendNext(prior, cues, i, cues[i]);
    assert after == before + [cues[i]];
    var index := 1 + |before|;
    assert index == 1 + |prior| + i;
    assert NatToString(index) == NatToString(1 + |prior| + i);
    SrtLinesSnoc(before, cues[i], fmt, 1);
    assert SrtLines(after, fmt, 1) == SrtLines(before, fmt, 1) + CueLines(index, cues[i], fmt);
  }

  /**
    Token `i` of a segment without word timestamps is cue `i`: it starts `i` word durations after
    the segment's start and lasts one, a word duration being the segment's duration over its
    number of tokens.
  */
  lemma EvenCueTiming(seg: Segment, i: nat)
    requires i < |Words(seg.text)|
    ensures var words := Words(seg.text);
      var wordDuration := (seg.end - seg.start) / |words| as real;
      var wordStart := seg.start + (i as real * wordDuration);
      EvenCues(seg)[i] == Segment(words[i], wordStart, wordStart + wordDuration)
  {
    var words := Words(seg.text);
    var wordDuration := (seg.end - seg.start) / |words| as real;
    var wordStart := seg.start + (i as real * wordDuration);
    EvenSplitAt(words, seg.start, seg.end - seg.start, i, wordDuration, wordStart, wordStart + wordDuration);
  }

  lemma EvenSplitAt(words: seq<string>, from: real, duration: real, i: nat, wordDuration: real, wordStart: real, wordEnd: real)
    requires i < |words|
    requires wordDuration == duration / |words| as real
    requires wordStart == from + (i as real * wordDuration) && wordEnd == wordStart + wordDuration
    ensures EvenSplit(words, from, duration)[i] == Segment(words[i], wordStart, wordEnd)
  {
    assert Share(duration, |words|) == wordDuration;
    EvenSplitFromAt(words, 0, from, wordDuration, i);
    OffsetIsProduct(from, wordDuration, i);
  }

  /**
    With word timestamps, cue `k` is word `k`: numbered `k + 1`, with that word's own start, end
    and text, and nothing else is emitted.
  */
  lemma RawSrtOfWords(transcript: Transcript, fmt: real -> string)
    requires |transcript.words| > 0
    ensures var lines, words := SrtLines(RawCues(transcript), fmt, 1), transcript.words;
      |lines| == 4 * |words|
      && forall k :: 0 <= k < |words| ==>
           lines[4 * k..4 * k + 4] == [NatToString(k + 1), fmt(words[k].start) + " --> " + fmt(words[k].end), words[k].word, ""]
  {
    var cues := RawCues(transcript);
    SrtLinesShape(cues, fmt, 1);
    forall k | 0 <= k < |transcript.words|
      ensures SrtLines(cues, fmt, 1)[4 * k..4 * k + 4]
              == [NatToString(k + 1), fmt(transcript.words[k].start) + " --> " + fmt(transcript.words[k].end), transcript.words[k].word, ""]
    {
      assert cues[k] == Segment(transcript.words[k].word, transcript.words[k].start, transcript.words[k].end);
    }
  }

  /** Without word timestamps, each segment with tokens is covered exactly, token by token, by contiguous cues. */
  lemma EvenCuesSpan(seg: Segment)
    requires Words(seg.text) != []
    ensures var cues := EvenCues(seg);
      cues != [] && Contiguous(cues) && cues[0].start == seg.start && cues[|cues| - 1].end == seg.end
      && Texts(cues) == Words(seg.text)
  {
    EvenSplitSpan(Words(seg.text), seg.start, seg.end - seg.start);
  }

  /** The tokens of every segment, in order. */
  function TokensOf(segments: seq<Segment>): seq<string>
  {
    if segments == [] then [] else TokensOf(segments[..|segments| - 1]) + Words(segments[|segments| - 1].text)
  }

  /** Without word timestamps, the cues carry the tokens of every segment, in order. */
  lemma {:induction false} EvenCuesOfWords(segments: seq<Segment>)
    ensures Texts(EvenCuesOf(segments)) == TokensOf(segments)
  {
    if segments != [] {
      var n := |segments|;
      EvenCuesOfWords(segments[..n - 1]);
      var before, last := EvenCuesOf(segments[..n - 1]), EvenCues(segments[n - 1]);
      TextsAppend(before, last);
      if Words(segments[n - 1].text) != [] {
        EvenCuesSpan(segments[n - 1]);
      } else {
        assert last == [];
      }
    } else {
      assert Texts([]) == [];
    }
  }
}
