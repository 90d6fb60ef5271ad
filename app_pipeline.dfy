/**
  How app.py's `main` turns a transcription into the cues of the standard SRT file. With segments,
  the API words are filed in one timing table, and each segment in turn is reconciled against that
  table and chunked; the chunks of all segments are gathered in order. Without segments but with
  words, the words are regrouped. With neither, there are no cues.
*/
module StandardSubtitles {
  import opened Text
  import opened Transcripts
  import Reconciliation
  import Chunker
  import Regrouping
  import AppSrt

  /** The cues gathered so far and the table the segments so far have left. */
  datatype Progress = Progress(cues: seq<Segment>, table: Reconciliation.Table)

  /** One segment: its tokens take timings from the table, and are chunked. */
  function ChunkNext(p: Progress, seg: Segment): Progress
  {
    var tokens := Reconciliation.SegmentTokens(seg);
    var r := Reconciliation.ReconcileTokens(p.table, tokens, seg, |tokens|);
    Progress(p.cues + Chunker.SegmentChunks(tokens, r.timings), r.table)
  }

  /** The first `n` segments, each reconciled against the table the ones before it left. */
  function ChunkedFirst(table: Reconciliation.Table, segments: seq<Segment>, n: nat): Progress
    requires n <= |segments|
  {
    if n == 0 then Progress([], table) else ChunkNext(ChunkedFirst(table, segments, n - 1), segments[n - 1])
  }

  /** The cues of the standard SRT file. */
  function StandardCues(transcript: Transcript): seq<Segment>
  {
    if transcript.segments != [] then
      ChunkedFirst(Reconciliation.TableOf(transcript.words), transcript.segments, |transcript.segments|).cues
    else if transcript.words != [] then Regrouping.Regrouped(transcript.words)
    else []
  }

  /** The branch of `main` that builds the processed segments. */
  method ProcessSegments(transcript: Transcript) returns (processed: seq<Segment>)
    ensures processed == StandardCues(transcript)
  {
    var segments := transcript.segments;
    if |segments| > 0 {
      var table := Reconciliation.BuildTable(transcript.words);
      ghost var initial := table.entries;
      processed := [];
      var i := 0;
      while i < |segments|
        invariant 0 <= i <= |segments|
        invariant ChunkedFirst(initial, segments, i) == Progress(processed, table.entries)
        modifies table
      {
        ChunkedNext(initial, segments, i);
        processed := ProcessSegment(table, segments[i], processed);
        i := i + 1;
      }
    } else if |transcript.words| > 0 {
      processed := Regrouping.RegroupWords(transcript.words);
    } else {
      processed := [];
    }
  }

  /** One pass of the loop over the segments: reconcile the segment's tokens, then chunk them. */
  method ProcessSegment(table: Reconciliation.TimingTable, segment: Segment, processed: seq<Segment>)
    returns (processed': seq<Segment>)
    modifies table
    ensures Progress(processed', table.entries) == ChunkNext(Progress(processed, old(table.entries)), segment)
  {
    var segmentWords, wordTimings := Reconciliation.ReconcileSegment(table, segment);
    assert Chunker.NonEmpty(segmentWords) by {
      assert IsWordList(segmentWords);
    }
    var chunks := Chunker.ChunkSegment(segmentWords, wordTimings);
    processed' := processed + chunks;
  }

  lemma ChunkedNext(table: Reconciliation.Table, segments: seq<Segment>, i: nat)
    requires i < |segments|
    ensures ChunkedFirst(table, segments, i + 1) == ChunkNext(ChunkedFirst(table, segments, i), segments[i])
  {
  }

  /** The standard SRT file: the processed segments, numbered from 1. */
  method StandardSrt(transcript: Transcript, fmt: real -> string) returns (standardSrt: string)
    ensures standardSrt == Join("\n", AppSrt.SrtLines(StandardCues(transcript), fmt, 1))
  {
    var processed := ProcessSegments(transcript);
    standardSrt := AppSrt.GenerateSrt(processed, fmt);
  }

  /** One segment adds its tokens, in order, to the words of the cues. */
  lemma ChunkNextKeepsTokens(p: Progress, seg: Segment)
    ensures WordsOfAll(Texts(ChunkNext(p, seg).cues)) == WordsOfAll(Texts(p.cues)) + Words(seg.text)
  {
    var tokens := Reconciliation.SegmentTokens(seg);
    var r := Reconciliation.ReconcileTokens(p.table, tokens, seg, |tokens|);
    var chunks := Chunker.SegmentChunks(tokens, r.timings);
    TextsAppend(p.cues, chunks);
    WordsOfAllAppend(Texts(p.cues), Texts(chunks));
    Chunker.ChunksKeepTokens(tokens, r.timings);
    WordsOfStrip(seg.text);
  }

  /** One segment adds cues exactly when it has a token. */
  lemma ChunkNextEmpty(p: Progress, seg: Segment)
    ensures ChunkNext(p, seg).cues == [] <==> p.cues == [] && Words(seg.text) == []
  {
    var tokens := Reconciliation.SegmentTokens(seg);
    var r := Reconciliation.ReconcileTokens(p.table, tokens, seg, |tokens|);
    Chunker.ChunksSpanTimings(tokens, r.timings);
    WordsOfStrip(seg.text);
  }

  /** One segment keeps every list of the table with its used entries ahead of its unused ones. */
  lemma ChunkNextConsistent(p: Progress, seg: Segment)
    requires Reconciliation.Consistent(p.table)
    ensures Reconciliation.Consistent(ChunkNext(p, seg).table)
  {
    var tokens := Reconciliation.SegmentTokens(seg);
    Reconciliation.ReconcileConsistent(p.table, tokens, seg, |tokens|);
  }

  lemma TokensOfPrefix(segments: seq<Segment>, n: nat)
    requires 0 < n <= |segments|
    ensures AppSrt.TokensOf(segments[..n]) == AppSrt.TokensOf(segments[..n - 1]) + Words(segments[n - 1].text)
  {
    assert segments[..n][..n - 1] == segments[..n - 1];
  }

  /** With segment timestamps, the cues carry the tokens of every segment, in order, and no others. */
  lemma {:induction false} ChunkedKeepsTokens(table: Reconciliation.Table, segments: seq<Segment>, n: nat)
    requires n <= |segments|
    ensures WordsOfAll(Texts(ChunkedFirst(table, segments, n).cues)) == AppSrt.TokensOf(segments[..n])
  {
    if n == 0 {
      assert Texts([]) == [];
    } else {
      ChunkedKeepsTokens(table, segments, n - 1);
      ChunkNextKeepsTokens(ChunkedFirst(table, segments, n - 1), segments[n - 1]);
      TokensOfPrefix(segments, n);
    }
  }

  /** With segment timestamps, there are cues exactly when some segment has a token. */
  lemma {:induction false} ChunkedEmpty(table: Reconciliation.Table, segments: seq<Segment>, n: nat)
    requires n <= |segments|
    ensures ChunkedFirst(table, segments, n).cues == [] <==> AppSrt.TokensOf(segments[..n]) == []
  {
    if n > 0 {
      ChunkedEmpty(table, segments, n - 1);
      ChunkNextEmpty(ChunkedFirst(table, segments, n - 1), segments[n - 1]);
      TokensOfPrefix(segments, n);
    }
  }

  /** Every list in the table keeps its used entries ahead of its unused ones, segment after segment. */
  lemma {:induction false} ChunkedConsistent(table: Reconciliation.Table, segments: seq<Segment>, n: nat)
    requires n <= |segments| && Reconciliation.Consistent(table)
    ensures Reconciliation.Consistent(ChunkedFirst(table, segments, n).table)
  {
    if n > 0 {
      ChunkedConsistent(table, segments, n - 1);
      ChunkedConsistentStep(table, segments, n);
    }
  }

  lemma ChunkedConsistentStep(table: Reconciliation.Table, segments: seq<Segment>, n: nat)
    requires 0 < n <= |segments| && Reconciliation.Consistent(ChunkedFirst(table, segments, n - 1).table)
    ensures Reconciliation.Consistent(ChunkedFirst(table, segments, n).table)
  {
    ChunkNextConsistent(ChunkedFirst(table, segments, n - 1), segments[n - 1]);
  }

  /**
    The words of the standard cues: with segments, the tokens of the segments in order, and cues
    exactly when there is a token; without segments, the API words in order when none holds
    whitespace, and cues exactly when there are words.
  */
  lemma StandardCuesWords(transcript: Transcript)
    ensures var cues := StandardCues(transcript);
      && (transcript.segments != [] ==>
            WordsOfAll(Texts(cues)) == AppSrt.TokensOf(transcript.segments)
            && (cues == [] <==> AppSrt.TokensOf(transcript.segments) == []))
      && (transcript.segments == [] ==> (cues == [] <==> transcript.words == []))
      && (transcript.segments == [] && IsWordList(Regrouping.Spoken(transcript.words)) ==>
            WordsOfAll(Texts(cues)) == Regrouping.Spoken(transcript.words))
  {
    var segments := transcript.segments;
    var table := Reconciliation.TableOf(transcript.words);
    if segments != [] {
      ChunkedKeepsTokens(table, segments, |segments|);
      ChunkedEmpty(table, segments, |segments|);
      assert segments[..|segments|] == segments;
    } else {
      Regrouping.RegroupedSegments(transcript.words);
      if IsWordList(Regrouping.Spoken(transcript.words)) {
        if transcript.words != [] {
          Regrouping.RegroupedKeepsWords(transcript.words);
        } else {
          assert Texts([]) == [];
        }
      }
    }
  }

  /** The table the segments share never loses the used-prefix shape it starts with. */
  lemma StandardTableConsistent(transcript: Transcript)
    requires transcript.segments != []
    ensures Reconciliation.Consistent(
      ChunkedFirst(Reconciliation.TableOf(transcript.words), transcript.segments, |transcript.segments|).table)
  {
    Reconciliation.TableOfFresh(transcript.words, "");
    ChunkedConsistent(Reconciliation.TableOf(transcript.words), transcript.segments, |transcript.segments|);
  }
}
