/**
  The two parts of openai_whisper_utils.py that handle a transcription once the API has returned
  it: the conversion of the API's segments into `{start, end, text}` records, and `getSubs`, which
  writes the segments as VTT or SRT into an in-memory stream and reads the stream back.
*/
module WhisperSubs {
  import opened Wrappers
  import opened Text
  import opened Transcripts
  import Writers
  import AppSrt

  /** The dictionary `transcribe_with_openai` returns: the API's text and language, and the converted segments. */
  datatype Transcription = Transcription(text: string, language: string, segments: seq<Segment>)

  /** The message of the exception `getSubs` raises for a format it does not know. */
  function UnknownFormat(format: string): string
  {
    "Unknown format " + format
  }

  /** Segments whose times `format_timestamp` accepts and that do not end before they start. */
  predicate WellTimed(segments: seq<Segment>) {
    forall k :: 0 <= k < |segments| ==> 0.0 <= segments[k].start <= segments[k].end
  }

  /** What a writer leaves in the stream, or the assertion `format_timestamp` raises. */
  function WriterResult(style: Writers.Style, cues: seq<Segment>): Result<string, string>
  {
    if Writers.AllGood(cues) then Success(Writers.Written(style, cues)) else Failure(Writers.NegativeTimestamp)
  }

  /** The writer a format names: `vtt` and `srt`, and no other. */
  function FormatStyle(format: string): Option<Writers.Style>
  {
    if format == "vtt" then Some(Writers.Vtt) else if format == "srt" then Some(Writers.Srt) else None
  }

  /** What `getSubs` returns, or the exception it raises. */
  function Subs(segments: seq<Segment>, format: string, maxLineWidth: int): Result<string, string>
  {
    match FormatStyle(format)
    case None => Failure(UnknownFormat(format))
    case Some(style) => WriterResult(style, Writers.WriterCues(segments, Some(maxLineWidth)))
  }

  /** `getSubs`: a fresh stream, the writer of the format, then the stream read back from its start. */
  method GetSubs(segments: seq<Segment>, format: string, maxLineWidth: int) returns (r: Result<string, string>)
    ensures r == Subs(segments, format, maxLineWidth)
  {
    var style;
    if format == "vtt" {
      style := Writers.Vtt;
    } else if format == "srt" {
      style := Writers.Srt;
    } else {
      return Failure(UnknownFormat(format));
    }
    assert FormatStyle(format) == Some(style);
    var segmentStream := new Writers.TextStream();
    var ok := WriteFormat(segmentStream, style, segments, Some(maxLineWidth));
    ghost var written := Writers.Written(style, Writers.WriterCues(segments, Some(maxLineWidth)));
    assert segmentStream.content == "" + written;
    if !ok {
      return Failure(Writers.NegativeTimestamp);
    }
    assert "" + written == written;
    r := Success(segmentStream.content);
  }

  /** The branch of `getSubs` that calls the writer of the format. */
  method WriteFormat(file: Writers.TextStream, style: Writers.Style, segments: seq<Segment>, maxLineWidth: Option<int>)
    returns (ok: bool)
    modifies file
    ensures ok == Writers.AllGood(Writers.WriterCues(segments, maxLineWidth))
    ensures file.content == old(file.content) + Writers.Written(style, Writers.WriterCues(segments, maxLineWidth))
  {
    if style == Writers.Vtt {
      ok := Writers.WriteVtt(file, segments, maxLineWidth);
    } else {
      ok := Writers.WriteSrt(file, segments, maxLineWidth);
    }
  }

  /**
    The loop of `transcribe_with_openai` that appends one record per API segment to `result["segments"]`.
    Its records are `Writers.StrippedSegments` of the API's segments: the same per-segment stripping of
    the text, times copied, that `write_raw_srt` and `write_txt` apply, so it is defined once there.
  */
  method ConvertTranscript(text: string, language: string, apiSegments: seq<Segment>) returns (result: Transcription)
    ensures result == Transcription(text, language, Writers.StrippedSegments(apiSegments))
  {
    ghost var converted := Writers.StrippedSegments(apiSegments);
    result := Transcription(text, language, []);
    for i := 0 to |apiSegments|
      invariant result == Transcription(text, language, converted[..i])
    {
      var segment := apiSegments[i];
      assert converted[..i + 1] == converted[..i] + [converted[i]];
      result := result.(segments := result.segments + [Segment(Strip(segment.text), segment.start, segment.end)]);
    }
    assert converted[..|apiSegments|] == converted;
  }

  // ---------------------------------------------------------------- the format dispatch

  /**
    Only `vtt` and `srt` can give a text; any other format, and only such a format, raises
    `Unknown format` followed by the format, which no failed writer's message can be taken for.
  */
  lemma SubsFormats(segments: seq<Segment>, format: string, maxLineWidth: int)
    ensures Subs(segments, format, maxLineWidth).Success? ==> format == "vtt" || format == "srt"
    ensures Subs(segments, format, maxLineWidth) == Failure(UnknownFormat(format)) <==> format != "vtt" && format != "srt"
  {
    assert Writers.NegativeTimestamp[0] == 'n';
    assert UnknownFormat(format)[0] == 'U';
  }

  /** `vtt` with a negative time raises exactly where some cue of the writers has one, and likewise `srt`. */
  lemma {:induction false} SubsFails(segments: seq<Segment>, format: string, maxLineWidth: int)
    requires format == "vtt" || format == "srt"
    ensures Subs(segments, format, maxLineWidth).Failure? <==> !Writers.AllGood(Writers.WriterCues(segments, Some(maxLineWidth)))
    ensures Subs(segments, format, maxLineWidth).Failure? ==> Subs(segments, format, maxLineWidth).error == Writers.NegativeTimestamp
  {
  }

  /**
    For well-timed segments `getSubs` never raises on `vtt` or `srt`: it returns the header of the
    format (the `WEBVTT` line and a blank line for VTT, nothing for SRT) followed by every cue's
    block, in order and numbered from 1.
  */
  lemma {:induction false} SubsWellTimed(segments: seq<Segment>, format: string, maxLineWidth: int)
    requires FormatStyle(format).Some? && WellTimed(segments)
    ensures var style, cues := FormatStyle(format).value, Writers.WriterCues(segments, Some(maxLineWidth));
      && Writers.AllGood(cues)
      && Subs(segments, format, maxLineWidth) == Success(Writers.Header(style) + Concat(Writers.Blocks(Writers.Render(style), cues, 1)))
  {
    var style, cues := FormatStyle(format).value, Writers.WriterCues(segments, Some(maxLineWidth));
    Writers.WriterCuesGood(segments, Some(maxLineWidth));
    Writers.OutputBlocks(Writers.Render(style), cues, 1);
  }

  // ---------------------------------------------------------------- the segment conversion

  lemma StrippedPrefix(segments: seq<Segment>, n: nat)
    requires 0 < n <= |segments|
    ensures Writers.StrippedSegments(segments[..n])
         == Writers.StrippedSegments(segments[..n - 1]) + [Writers.StrippedSegments(segments)[n - 1]]
  {
    assert segments[..n][..n - 1] == segments[..n - 1];
  }

  /** The converted records keep the segments' tokens in order, and every text has no whitespace at either end. */
  lemma {:induction false} ConvertedTokens(segments: seq<Segment>)
    ensures AppSrt.TokensOf(Writers.StrippedSegments(segments)) == AppSrt.TokensOf(segments)
    ensures forall k :: 0 <= k < |segments| ==> Stripped(Writers.StrippedSegments(segments)[k].text)
  {
    if segments != [] {
      var n := |segments|;
      var converted := Writers.StrippedSegments(segments);
      ConvertedTokens(segments[..n - 1]);
      StrippedPrefix(segments, n);
      assert segments[..n] == segments;
      assert converted[..n - 1] == Writers.StrippedSegments(segments[..n - 1]);
      assert converted == converted[..n - 1] + [converted[n - 1]];
      WordsOfStrip(segments[n - 1].text);
    }
  }

  /** Converting records that are already converted changes nothing. */
  lemma ConvertedIdempotent(segments: seq<Segment>)
    ensures Writers.StrippedSegments(Writers.StrippedSegments(segments)) == Writers.StrippedSegments(segments)
  {
    var once := Writers.StrippedSegments(segments);
    forall k | 0 <= k < |segments|
      ensures Writers.StrippedSegments(once)[k] == once[k]
    {
      StripOfStripped(once[k].text);
    }
  }

  /** The writers give the same cues for the converted records as for the API's own segments. */
  lemma {:induction false} ConvertedWritesSame(segments: seq<Segment>, maxLineWidth: Option<int>)
    ensures Writers.WriterCues(Writers.StrippedSegments(segments), maxLineWidth) == Writers.WriterCues(segments, maxLineWidth)
  {
    if segments != [] {
      var n := |segments|;
      var converted := Writers.StrippedSegments(segments);
      ConvertedWritesSame(segments[..n - 1], maxLineWidth);
      StrippedPrefix(segments, n);
      assert segments[..n] == segments;
      assert converted[..n - 1] == Writers.StrippedSegments(segments[..n - 1]);
      StripOfStripped(Strip(segments[n - 1].text));
    }
  }
}
