# WhisperVideoSubtitleGenerator: the subtitle engine, in Dafny

This project models the part of WhisperVideoSubtitleGenerator that turns a Whisper transcription into
subtitles, and proves properties of that model. Four pieces are modelled.

1. **The standard-cue builder of `app.py`.** Two blocks inline in `main` are included.
   - The word-timing reconciliation builds one table from each API word's stripped text to its
     timings, each with a `used` flag. A segment token looks up its punctuation-stripped key and takes
     the first unused entry. When nothing matches, its time is estimated from the segment.
   - The chunker closes a chunk at a sentence end before a capitalised token, at the last token, or
     when the chunk grows past 26 characters. In that last case it backs off one token.
   - The words-only regrouping, used when there are no segments.

   Also included are `split_text_at_punctuation`, `split_text_by_length`,
   `process_transcript_segments`, `generate_srt` and `generate_raw_srt`.
2. **The Whisper-style writers of `utils.py`.**
   - `format_timestamp`, on integer milliseconds.
   - `write_srt` and `write_vtt`. They split an over-long text at `. `, pack its words greedily under
     the width, and share the segment's time among the lines in proportion to word count. A
     non-last line gets at least 0.8 s, and every line is clamped to the time that remains.
   - `write_raw_srt` and `write_txt`.
3. **`getSubs` of `openai_whisper_utils.py`.** It sends `vtt` to `write_vtt` and `srt` to
   `write_srt`, and raises on any other format.
4. **The conversion loop of `transcribe_with_openai`.** It turns the API's segments into
   `{start, end, text}` records.

Every loop of the source is a `method` with that loop and its invariants. Each method is proved
equal to a recursive specification function of its inputs. The properties are lemmas about those
functions.

Two pieces of state are mutated in place, and each is a class:
- the timing table (`Reconciliation.TimingTable`, a `map` from key to a list of entries);
- the output file (`Writers.TextStream`, whose `content` grows by each `print`).

Times are `real`. The timestamp of `utils.py` works on the integer number of milliseconds that
`round(seconds * 1000)` gives. Python's `round` is modelled on the exact value, rounding ties to the
even integer.

Python's `str.split()`, `str.strip()`, `str.strip(chars)`, `sep.join`, `str.split(sep)`,
`str.replace` and `f"{n:02d}"` are written out in the module `Text`.

Negative times follow the code:
- Negative durations are computed as they come; nothing clamps a segment that ends before it starts.
- `utils.format_timestamp` asserts on a negative time.
- A writer stops at the first cue with a negative time, and what it printed before stays in the stream.
- `getSubs` then fails with the assertion's message.

Files:
- `wrappers.dfy`: `Option` and `Result`.
- `text.dfy`: the Python string built-ins.
- `transcript.dfy`: words, segments and even splits of a time span.
- `spans.dfy`: chunk spans over a token list.
- `timestamps.dfy`: `format_timestamp` and its parser.
- `app_text.dfy`, `app_reconcile.dfy`, `app_chunker.dfy`, `app_regroup.dfy`, `app_cues.dfy` and
  `app_pipeline.dfy`: `app.py`.
- `utils_text.dfy`, `utils_timing.dfy` and `utils_writers.dfy`: `utils.py`.
- `whisper_subs.dfy`: `openai_whisper_utils.py`.

## Model

| member | source | states |
|---|---|---|
| Text.ZeroPadProperties | utils.py:44-45 | `f"{n:0Wd}"` keeps the value of `n`. It is exactly `W` characters wide when the digits are fewer, and otherwise as wide as the digits. |
| Text.WordsOfStrip | app.py:81 | Stripping a text keeps its `split()` tokens. |
| Text.StripEmptyIffNoWords | app.py:38-39 | A text strips to nothing exactly when it has no token. |
| Text.StripOf | app.py:392 | `strip(chars)` leaves no character of the set at either end, and never grows the text. |
| Text.StripOfInfix | app.py:392 | `strip(chars)` is a stretch `s[i..j]` of the text, and everything before `i` and from `j` on is a character of the set. |
| Text.JoinSplitOn | utils.py:148 | Joining the parts of `text.split(sep)` with `sep` gives the text back. |
| Text.SplitOnPiecesFree | utils.py:148 | No part of `text.split(sep)` contains `sep`. |
| Text.DigitsValueOfNatToString | app.py:155 | `str(n)` reads back as `n`. |
| Text.NatToStringInjective | app.py:155 | Different cue numbers give different index lines. |
| Timestamps.ClockOf | utils.py:35-42 | The successive subtractions give minutes < 60, seconds < 60 and ms < 1000. `hours*3600000 + minutes*60000 + seconds*1000 + ms` is exactly the input. |
| Timestamps.RoundHalfEven | utils.py:33 | `round` gives an integer within 0.5 of its argument, even on a tie, and non-negative for a non-negative argument. |
| TimestampParsing.ParseFormatTimestamp | utils.py:31-45 | The round trip: parsing the formatted text, with either separator and with or without forced hours, gives back the milliseconds. |
| TimestampParsing.HoursFieldShown | utils.py:44 | The `HH:` field is present exactly when hours are forced or non-zero. |
| TimestampParsing.ParseRender | utils.py:44-45 | Any clock with fields in range renders to a text that parses back to the milliseconds it stands for. |
| TimestampParsing.ParseHoursMarker | utils.py:44 | The hours marker, or its absence, reads back as the hours. |
| TimestampParsing.ParseClockFields | utils.py:45 | `MM:SS<sep>mmm` is 8 characters wide plus the separator, with each field at its fixed width. It reads back as minutes, seconds and milliseconds. |
| TimestampParsing.PadWidths | utils.py:44-45 | Minutes and seconds pad to 2 digits and milliseconds to 3, and hours to at least 2. Each padded field keeps its value. |
| PunctuationSplit.FindDelimiter | app.py:28 | Returns the leftmost match of `[.!] ` at or after a position, or `None` exactly when there is no match. |
| PunctuationSplit.RegexSplit | app.py:28 | `re.split` with a capturing group returns an odd number of parts. |
| PunctuationSplit.RegexSplitShape | app.py:28 | The parts concatenate back to the text, and every part at an odd position is a two-character match of `[.!] `: texts and delimiters alternate. |
| PunctuationSplit.SplitTextAtPunctuation | app.py:25-46 | The function returns the stretches of the text up to each `.` or `!` followed by a space, each stripped, with blank ones dropped. |
| PunctuationSplit.JoinStretches | app.py:30-45 | The loop over the parts `re.split` returns gives the stripped, non-blank stretches, ending with the remainder. |
| PunctuationSplit.JoinSegment | app.py:33-40 | A text at an even position extends the current stretch. A delimiter at an odd position closes it without its trailing space. |
| PunctuationSplit.KeepStretch | app.py:38-39 | A stretch is appended stripped, and only when the stripped text is non-empty. |
| PunctuationSplit.ListStretchesOfRegexSplit | app.py:28-40 | Walking the parts of `re.split` rebuilds exactly the stretches of the text. |
| PunctuationSplit.RawSentencesEnd | app.py:28-37 | Every stretch but the last ends with the `.` or `!` of its delimiter. |
| PunctuationSplit.RawSentencesWords | app.py:28-44 | The stretches carry the text's tokens, in order. |
| PunctuationSplit.KeepAllShape | app.py:38-44 | After stripping and dropping blanks, every piece is non-empty and stripped, and no token is lost. |
| PunctuationSplit.KeptSentence | app.py:38-39 | A stretch ending in `.` or `!` survives stripping and still ends with it. |
| PunctuationSplit.KeepAllEnds | app.py:38-44 | Dropping blank stretches keeps every piece but the last ending a sentence. |
| PunctuationSplit.PunctuationPiecesShape | app.py:25-46 | Every piece is non-empty with no surrounding whitespace. Every piece but the last ends with `.` or `!`. The pieces carry exactly the text's tokens, in order. |
| LengthSplit.SplitTextByLength | app.py:48-74 | Returns the greedy chunks: a token joins the current chunk while the result fits `max_length`. Otherwise the chunk closes, or an over-long lone token becomes a chunk of its own. |
| LengthSplit.ExtendChunk | app.py:56 | Appending a token with a separating space adds exactly that token to the chunk's tokens. |
| LengthSplit.LengthChunksFromWords | app.py:54-72 | The chunks carry the tokens of the chunk being built and then the remaining tokens, in order. |
| LengthSplit.LengthChunksFromFit | app.py:54-72 | Every chunk has a token, and is at most `max_length` long or a single token. |
| LengthSplit.LengthChunksShape | app.py:48-74 | The chunks read in order give `text.split()`. Each is at most `max_length` long or a single token. There are none exactly when the text has no token. |
| TranscriptProcessing.ProcessTranscriptSegments | app.py:76-109 | The cues are those of every segment, in order. |
| TranscriptProcessing.SegmentSubcues | app.py:80-107 | One segment's cues: its pieces, each packed into chunks, with the times shared out piece by piece and chunk by chunk. |
| TranscriptProcessing.ChunkLists | app.py:89-91 | There is one chunk list per punctuation piece. |
| TranscriptProcessing.PiecesEntries | app.py:89-107 | The loop over the pieces appends the cues of every piece in order. |
| TranscriptProcessing.PieceEntries | app.py:89-95 | Piece `i` contributes its chunks, sharing `duration / P` of the segment. |
| TranscriptProcessing.PieceSubcues | app.py:97-107 | The inner loop appends the piece's sub-cues in order. |
| TranscriptProcessing.Subcue | app.py:99-101 | The sub-cue the loop computes is sub-cue `j` of piece `i`. |
| TranscriptProcessing.SubsegmentStart | app.py:100 | `start + i*segment_duration + j*subsegment_duration` is the start advanced by `i` piece shares and then `j` chunk shares. |
| TranscriptProcessing.PieceCueTiming | app.py:94-101 | Sub-cue `j` of piece `i` has its chunk's text. It starts at `start + i*d/P + j*(d/P)/L_i` and lasts `(d/P)/L_i`. |
| TranscriptProcessing.PieceCueAt | app.py:95-101 | The same timing, stated over the variables the loop computes. |
| TranscriptProcessing.ShareOfShare | app.py:95-99 | `(d/P)/L` equals `d/(P*L)`. |
| TranscriptProcessing.PieceCuesSpan | app.py:97-107 | One piece's cues follow each other from the piece's start to its end, and carry its chunks. |
| TranscriptProcessing.PiecesCuesSpan | app.py:89-107 | The first `n` pieces give contiguous cues from the segment's start to the end of the `n`-th share. |
| TranscriptProcessing.PiecesCuesTexts | app.py:89-107 | The texts of the cues are the chunks of the pieces, in order. |
| TranscriptProcessing.ChunkListsWords | app.py:89-91 | Packing every piece keeps the pieces' tokens, in order. |
| TranscriptProcessing.PiecesHaveWords | app.py:38-44 | Every punctuation piece has a token. |
| TranscriptProcessing.ChunkListsNonEmpty | app.py:91 | Every piece with a token packs into at least one chunk. |
| TranscriptProcessing.SegmentCuesEmpty | app.py:80-89 | A segment without tokens gives no cues. |
| TranscriptProcessing.SegmentListsNonEmpty | app.py:81-91 | A segment with a token has pieces, and every piece has a chunk. |
| TranscriptProcessing.ListsCuesSpan | app.py:89-107 | When every piece has a chunk, the cues run contiguously from the segment's start to its end. |
| TranscriptProcessing.SegmentCuesSpan | app.py:80-107 | A segment with a token gives contiguous cues, the first at `segment.start` and the last ending at `segment.end`. |
| TranscriptProcessing.ListsCuesTexts | app.py:89-107 | All cues carry all the chunks, in order. |
| TranscriptProcessing.SegmentPiecesWords | app.py:81-87 | The pieces of a segment carry the tokens of its text, in order. |
| TranscriptProcessing.SegmentCuesWords | app.py:80-107 | A segment's cues carry exactly its tokens, in order. |
| AppSrt.GenerateSrt | app.py:150-173 | The SRT text is the cues' lines, numbered from 1, joined by `"\n"`. |
| AppSrt.SrtLinesSnoc | app.py:154-171 | One more cue appends its four lines, numbered after the others. |
| AppSrt.SrtLinesShape | app.py:150-173 | Cue `k` is at lines `4k..4k+3`: its index `k+1`, `start --> end`, its text and a blank line. |
| AppSrt.WordCues | app.py:119-124 | There is one cue per API word. |
| AppSrt.GenerateRawSrt | app.py:111-148 | With words, the raw SRT has one entry per word. Without words, it has one entry per token of each segment, sharing the segment evenly. All are numbered from 1 and joined by `"\n"`. |
| AppSrt.WordEntries | app.py:119-124 | The word loop emits the entries of the words' own cues, and leaves the counter at `1 + |words|`. |
| AppSrt.EvenWordEntries | app.py:137-146 | The token loop appends the even split of the segment, numbered on from the entries before it. |
| AppSrt.EvenWordEntry | app.py:138-146 | One pass appends token `i`'s entry and moves the counter on by one. |
| AppSrt.SrtLinesNext | app.py:141-146 | Appending cue `i`'s four lines with number `1 + |prior| + i` extends the numbered lines of the prefix by one cue. |
| AppSrt.EvenCueTiming | app.py:134-139 | Token `i` starts `i` word durations after the segment's start and lasts one. A word duration is the segment's duration over its token count. |
| AppSrt.EvenSplitAt | app.py:135-139 | The same timing, stated over the loop's own variables. |
| AppSrt.RawSrtOfWords | app.py:117-124 | With word timestamps, entry `k` is exactly `k+1`, the word's own `start --> end`, its text and a blank line. Nothing else is emitted. |
| AppSrt.EvenCuesSpan | app.py:129-146 | Without word timestamps, a segment with tokens is covered exactly and contiguously, token by token. |
| AppSrt.EvenCuesOfWords | app.py:126-146 | Without word timestamps, the cues carry the tokens of every segment, in order. Segments without tokens are skipped. |
| Transcripts.EvenSplitSpan | app.py:134-139 | An even split is contiguous, spans exactly the time from its start to its end, and carries its texts in order. |
| Reconciliation.TimingTable.constructor | app.py:363 | The table starts empty. |
| Reconciliation.TimingTable.Record | app.py:367-374 | Filing a word appends a fresh unused entry with its times to the list of its stripped text. |
| Reconciliation.TimingTable.Consume | app.py:395-401 | A lookup hands out the first unused entry under the key and marks it used. Otherwise the table is unchanged. |
| Reconciliation.BuildTable | app.py:363-374 | The table-building loop gives the table of all the API words. |
| Reconciliation.Unused | app.py:370-374 | The fresh entries of some words carry their times, unused. |
| Reconciliation.FirstUnused | app.py:397-401 | The position of the first unused entry: every earlier one is used. `None` exactly when all are used. |
| Reconciliation.TableOfEntries | app.py:363-374 | A key has a list exactly when some API word strips to it. The list holds one fresh entry per such word, in the words' order. |
| Reconciliation.TableOfFresh | app.py:363-374 | A new table has every list used from the front, with nothing used. |
| Reconciliation.TakeNext | app.py:395-401 | In a list used from the front, a lookup hands out the entry just after the used ones, exactly when there is one, and the used count grows by one. Entries go out at most once, in filing order. |
| Reconciliation.TakeKeeps | app.py:396-401 | A lookup changes only the flags under its own key. It keeps every key and every span. |
| Reconciliation.TakeConsistent | app.py:395-401 | A lookup keeps every list used from the front. |
| Reconciliation.FirstIndex | app.py:411 | `list.index` is the first occurrence. |
| Reconciliation.EstimateAt | app.py:411-416 | The estimate the loop computes is the defined estimate. |
| Reconciliation.TokenTiming | app.py:403-422 | A token keeps its own text, and takes the handed-out span when there is one. |
| Reconciliation.ReconcileTokens | app.py:390-422 | The first `n` tokens get one timing each. |
| Reconciliation.LookUp | app.py:391-422 | One more token adds one timing. |
| Reconciliation.ReconcileSegment | app.py:385-422 | The segment's tokens are its stripped text split on whitespace. Each is looked up in turn in the shared table, which ends as the lookups left it. |
| Reconciliation.LookUpToken | app.py:391-422 | A token takes the first unused entry under its key with `.,!?;:"()[]` stripped, or else the estimate. The table ends as that lookup left it. |
| Reconciliation.ReconciledAt | app.py:390-422 | Token `k` keeps its text, and its timing comes from looking up its stripped key in the table the earlier tokens left. |
| Reconciliation.ReconcileConsistent | app.py:390-401 | Reconciling a segment keeps every list used from the front. |
| Reconciliation.EstimateSpan | app.py:409-422 | An unmatched token starts `m*d/n` after the segment's start and lasts `d/n`, where `m` is the first occurrence of its text. Repeated tokens share one span. |
| Chunker.Cuts | app.py:428-474 | After `n` tokens, the open chunk starts by `n`, and every closed chunk is non-empty and ends before it. |
| Chunker.CutsTiles | app.py:425-474 | The closed chunks tile the tokens up to the open chunk. |
| Chunker.CutAfterTiles | app.py:428-474 | A pass closes at most one chunk, starting where the open one did, and keeps the tiling. |
| Chunker.ChunkSegment | app.py:425-474 | The chunking loop gives the cues of the chunk spans. |
| Chunker.ChunkNext | app.py:428-474 | One pass moves the state after `i` tokens to the state after `i+1`. |
| Chunker.ChunkToken | app.py:429-474 | Token `i` joins the open chunk, and the three rules are tried in order. |
| Chunker.CloseChunk | app.py:466-474 | A split closes the open chunk as a cue, and a new empty chunk opens. |
| Chunker.BackOff | app.py:449-464 | The overflowing token is popped, the rest is closed, and a new chunk opens with that token. |
| Chunker.AppendChunk | app.py:455-459 | The cue of a chunk is its tokens joined by spaces, from its first timing's start to its last timing's end. |
| Chunker.CutsOpen | app.py:428-474 | The open chunk holds no sentence break and does not overflow. |
| Chunker.CutsJustified | app.py:433-464 | Every closed chunk was closed by the rule it names, and no earlier token of it would have closed it. |
| Chunker.CutAfterJustified | app.py:433-464 | A pass closes only chunks justified by their rule. |
| Chunker.ClosedBy | app.py:433-474 | The chunk a pass closes is justified. |
| Chunker.ChunkSpansTile | app.py:444-446 | After the last token nothing is left open, and the chunks tile all the tokens. |
| Chunker.SentenceBreaksEndChunks | app.py:437-442 | Every sentence break ends a chunk, and ends it for that reason. |
| Chunker.JustifiedBreak | app.py:437-442 | A sentence break inside a justified chunk is its last token. |
| Chunker.CutsKeepTokens | app.py:428-474 | The closed chunks' texts split back into the tokens before the open chunk. |
| Chunker.ChunksKeepTokens | app.py:425-474 | Every token lands in exactly one chunk, in order. |
| Chunker.ChunksSpanTimings | app.py:466-472 | There are chunks exactly when there are tokens. They run from the first token's start to the last token's end. |
| Chunker.JustifiedWidth | app.py:449-464 | A chunk closed for width fits 26 characters or is a single token, and the next token would overflow it. Otherwise it fits without its last token. |
| Chunker.ChunkWidths | app.py:449-464 | The same width facts, for every chunk of a segment. |
| Chunker.ChunkReasons | app.py:436-446 | A sentence-end chunk ends on a `.`/`!`/`?` token that is not in the abbreviation list, before a capitalised token. Only the final chunk is closed as the last token. A width chunk is never closed just before the final token. |
| Regrouping.Groupings | app.py:506-544 | After `n` words, the open segment starts by `n`, and the closed ones are non-empty and end before it. |
| Regrouping.GroupingsTiles | app.py:506-544 | The closed segments tile the words up to the open one. |
| Regrouping.RegroupWords | app.py:489-546 | The regrouping loop gives the segments of the group spans. |
| Regrouping.RegroupWord | app.py:506-544 | One pass: the word joins, `segment_start` is set on the first word, and the rules are tried in order. |
| Regrouping.RuleAtFacts | app.py:512-537 | What the `elif` chain means. The last word closes, and a word containing `.`, `!` or `?` always closes. With two or more words gathered, only a capitalised next word longer than one closes. A pause closes only a one-word segment. The 12-word cap never fires. |
| Regrouping.GroupAfterClosed | app.py:506-544 | A pass keeps the open segment open, or closes it by the rule that fired. |
| Regrouping.GroupingsClosed | app.py:506-544 | Every closed segment was closed by its rule at its last word, and by no rule before. |
| Regrouping.GroupSpansTile | app.py:515-517 | After the last word nothing is open, and the segments tile the words. |
| Regrouping.ClosedFacts | app.py:512-537 | What each closing rule says about a closed segment's words. |
| Regrouping.ClosedInterior | app.py:519-533 | No rule fired inside a closed segment. |
| Regrouping.ClosedEnding | app.py:519-521 | A word with sentence punctuation is the last of its segment. |
| Regrouping.GroupReasons | app.py:512-537 | Why each segment closed. The last word closes the final segment and no other. A word containing `.`, `!` or `?` closes its segment. A capitalised word longer than one closes the segment before it once two words are gathered. A pause over 1.2 s closes only a one-word segment. The cap never closes one. |
| Regrouping.GroupInterior | app.py:512-533 | Inside a segment: no word before the last contains sentence punctuation, no word but the first precedes a sentence start, and the first precedes no long pause. |
| Regrouping.EndingsCloseGroups | app.py:519-521 | Every word containing `.`, `!` or `?` is the last word of a segment. |
| Regrouping.GroupingsKeepWords | app.py:506-544 | The closed segments' texts split back into the words before the open one. |
| Regrouping.GroupAfterKeepsWords | app.py:506-544 | One pass keeps that correspondence. |
| Regrouping.RegroupedKeepsWords | app.py:506-546 | When no word holds whitespace, every word lands in exactly one segment, in order. |
| Regrouping.RegroupedSegments | app.py:539-544 | The spans tile the words, and there are segments exactly when there are words. Segment `k` is its words joined by spaces, from the first's start to the last's end. |
| StandardSubtitles.ProcessSegments | app.py:363-548 | With segments, the words fill one table, and each segment in turn is reconciled against it and chunked. Without segments, the words are regrouped. Without either, there are no cues. |
| StandardSubtitles.ProcessSegment | app.py:385-475 | One segment is reconciled against the table the earlier ones left, and its chunks are appended. |
| StandardSubtitles.StandardSrt | app.py:551 | The standard SRT is `generate_srt` of the processed segments. |
| StandardSubtitles.ChunkNextKeepsTokens | app.py:385-474 | One segment adds its tokens, in order. |
| StandardSubtitles.ChunkNextEmpty | app.py:385-474 | A segment adds cues exactly when it has a token. |
| StandardSubtitles.ChunkNextConsistent | app.py:385-422 | One segment keeps the table used from the front. |
| StandardSubtitles.ChunkedKeepsTokens | app.py:383-476 | The cues carry the tokens of every segment, in order. |
| StandardSubtitles.ChunkedEmpty | app.py:383-476 | There are cues exactly when some segment has a token. |
| StandardSubtitles.ChunkedConsistent | app.py:385-422 | Across all segments the table stays used from the front, so each entry is handed out once, in filing order. |
| StandardSubtitles.StandardCuesWords | app.py:363-548 | With segments, the cues carry exactly the segments' tokens, and exist exactly when there is a token. Without segments, they exist exactly when there are words, and carry the words in order. |
| StandardSubtitles.StandardTableConsistent | app.py:363-422 | The shared table never loses its used-prefix shape. |
| LongText.SplitSentences | utils.py:148-151 | The parts of `text.split('. ')`, with `.` given back to all but the last. |
| LongText.JoinWithPeriods | utils.py:148-151 | The parts joined by single spaces give back the text joined at `. `. |
| LongText.SentencePartsShape | utils.py:148-151 | The parts joined by spaces give back the text. Every part but the last ends with `.`, and no part holds a `. `. |
| LongText.PackWords | utils.py:160-173 | The greedy packing of one part's words. |
| LongText.PackFromWords | utils.py:160-173 | The packed lines carry the part's tokens, in order. |
| LongText.PackFromFit | utils.py:163-173 | Every packed line has a token, and fits the width or is a single token. |
| LongText.PartLinesShape | utils.py:155-173 | A part that fits is kept whole, else packed. Its lines carry its tokens and fit or are single tokens. |
| LongText.LinesOfShape | utils.py:155-173 | The same, over all the parts in order. |
| LongText.SplitLongText | utils.py:146-173 | The lines of an over-long text: whole parts that fit, packed lines for the rest. |
| LongText.LongTextLinesShape | utils.py:146-173 | An over-long text's lines carry its tokens in order, none lost or repeated. Each fits the width or is a single token. |
| TimeAllocation.CountWords | utils.py:180 | `total_words` is the sum of the lines' word counts. |
| TimeAllocation.AllocateTimes | utils.py:175-213 | The loop advancing `current_time` gives the cues of the allocation. |
| TimeAllocation.AllocateLine | utils.py:184-202 | One line's end: the proportional share, floored at 0.8 s unless last, and clamped to the remaining time. Without words, an even share. |
| TimeAllocation.AllocateFromShape | utils.py:177-213 | One cue per line, in order, the first at the start and each starting where the one before ended. |
| TimeAllocation.AllocateFromBounded | utils.py:195-198 | With words to share, no cue ends after the segment does. |
| TimeAllocation.ProportionalNonNegative | utils.py:188-189 | A proportional share of a non-negative span is non-negative. |
| TimeAllocation.AllocateFromWithin | utils.py:186-202 | With words to share and a segment that does not end before it starts, every cue lies within the segment. |
| TimeAllocation.AllocateFromFloors | utils.py:191-193 | Every non-last cue lasts at least 0.8 s or reaches the segment's end. The last is never floored. |
| TimeAllocation.TotalWordsNext | utils.py:180 | The word count of one more line adds its tokens. |
| TimeAllocation.SharesAdd | utils.py:188-189 | Proportional shares add up. |
| TimeAllocation.ClampStep | utils.py:196-198 | The clamp keeps a cue at or past the proportional shares so far, or at the segment's end. |
| TimeAllocation.AllocateFromUsesTime | utils.py:186-213 | With words to share, the last cue ends exactly at the segment's end. |
| TimeAllocation.AllocateFromEven | utils.py:199-200 | Without words, the lines split the segment evenly. |
| TimeAllocation.AllocationShape | utils.py:175-213 | All the allocation facts together. There is one contiguous cue per line, from the segment's start. With words, every cue ends by the segment's end, and a non-last cue lasts at least 0.8 s or reaches the end. When the segment also does not end before it starts, all cues lie within it and the last ends at its end. Without words, the lines split the segment evenly. |
| Writers.TextStream.constructor | openai_whisper_utils.py:87 | A new stream is empty. |
| Writers.TextStream.Print | utils.py:115-120 | `print` appends the text and a newline. |
| Writers.SegmentCuesOf | utils.py:145-200 | A segment gives one cue of its stripped text over its own times, unless it wraps. Then it gives its long-text lines with the allocated times. |
| Writers.PrintCues | utils.py:183-213 | The cues are printed numbered on from the index. Printing stops at the first negative time, which is where `ok` turns false. |
| Writers.WriteCues | utils.py:144-223 | The loop over segments prints the writers' cues numbered from 1, and fails exactly when some cue has a negative time. |
| Writers.WriteSegment | utils.py:144-223 | One segment's cues are printed, numbered on. A failure leaves what the whole writer leaves. |
| Writers.WriteSrt | utils.py:131-223 | `write_srt` appends its blocks to the file, and fails exactly on a negative time. |
| Writers.WriteVtt | utils.py:53-128 | `write_vtt` appends the header and its blocks, and fails exactly on a negative time. |
| Writers.PrintHeader | utils.py:54 | Appends `WEBVTT` and a blank line. |
| Writers.WriteRawSrt | utils.py:226-242 | One block per segment: stripped text, own times, numbered from 1. |
| Writers.PrintStripped | utils.py:231-242 | The loop of `write_raw_srt`, with `subtitle_index` counting from 1. |
| Writers.WriteTxt | utils.py:48-50 | Each segment's stripped text goes on a line of its own. |
| Writers.OutputAppend | utils.py:143-223 | The blocks of two cue lists are those of the first and then the second, numbered on. |
| Writers.OutputStops | utils.py:32 | After a negative time nothing more is printed. |
| Writers.OutputBlocks | utils.py:204-212 | With no negative time, every cue's block is printed in order, numbered consecutively. |
| Writers.OutputBlocksStop | utils.py:32 | At the first negative time, only the blocks before it are printed. |
| Writers.BlockNumbering | utils.py:115-211 | An SRT block starts with its index line. A VTT block has no index. |
| Writers.CueTextAbsent | utils.py:117 | A text without `-->` is printed unchanged. |
| Writers.CueTextSinglePass | utils.py:117 | The replacement is one left-to-right pass, so `--->` becomes `-->`. |
| Writers.WriterCuesStopped | utils.py:32 | Once a cue has a negative time, later segments print nothing. |
| Writers.RawIsUnwrapped | utils.py:226-242 | Without a width, `write_srt` prints exactly the cues of `write_raw_srt`. |
| Writers.UnwrappedCues | utils.py:214-223 | When no stripped text exceeds the width, each segment gives one cue: its stripped text over its own start and end. |
| Writers.WrappedCues | utils.py:146-213 | A segment that wraps is one cue per long-text line, contiguous from its start. |
| Writers.SegmentCuesWords | utils.py:145-200 | A segment's cues carry its tokens, in order. |
| Writers.SegmentCuesShape | utils.py:146-213 | A wrapped segment's cues carry its tokens, follow each other from its start, and each fits the width or is a single token. |
| Writers.WriterCuesWords | utils.py:144-213 | The writers' cues carry the tokens of every segment, in order. |
| Writers.EvenSplitGood | utils.py:199-200 | An even split of a non-negative span has no negative time. |
| Writers.SegmentCuesGood | utils.py:176-213 | A segment that starts at a non-negative time and does not end before it starts gives no negative time. |
| Writers.WriterCuesGood | utils.py:144-223 | Such segments never make a writer fail. |
| Writers.TxtOutputWords | utils.py:48-50 | The text file holds the segments' tokens, in order. |
| WhisperSubs.GetSubs | openai_whisper_utils.py:85-97 | `vtt` and `srt` give what the writer writes into a fresh stream. A failing writer raises its assertion. Any other format raises `Unknown format`. |
| WhisperSubs.WriteFormat | openai_whisper_utils.py:89-92 | The dispatch calls the writer of the format. |
| WhisperSubs.SubsFormats | openai_whisper_utils.py:89-94 | Only `vtt` and `srt` give text. Every other format, and only such a format, raises `"Unknown format " + format`. |
| WhisperSubs.SubsFails | openai_whisper_utils.py:89-92 | For `vtt` and `srt`, `getSubs` fails exactly when a cue has a negative time, with the assertion's message. |
| WhisperSubs.SubsWellTimed | openai_whisper_utils.py:85-97 | For well-timed segments, `getSubs` returns the header and then every cue's block, in order, numbered from 1. |
| WhisperSubs.ConvertTranscript | openai_whisper_utils.py:67-82 | The conversion gives one record per API segment, in order, with its times and its stripped text. |
| WhisperSubs.ConvertedTokens | openai_whisper_utils.py:75-80 | The records keep the tokens in order, with no whitespace at either end of any text. |
| WhisperSubs.ConvertedIdempotent | openai_whisper_utils.py:75-80 | Converting converted records changes nothing. |
| WhisperSubs.ConvertedWritesSame | openai_whisper_utils.py:75-80 | The writers give the same cues for the records as for the API's segments. |

## Left out

- The Streamlit UI of `main`: the sidebar, uploads, buttons, `st.write` output, downloads and previews (app.py:255-362, 477, 547-676). The UI is not part of the subtitle logic.
- `extract_audio_from_video` and `test_moviepy.py`. They need ffmpeg, MoviePy, temporary files and processes.
- The OpenAI client and the transcription and translation calls, with their secrets and environment lookups (openai_whisper_utils.py:10-66, 100-119). These are network access.
  - The API's reply is a parameter of `ConvertTranscript`, and the transcription is a parameter of `ProcessSegments` and `GenerateRawSrt`.
- `compression_ratio`, `optional_float`, `exact_div`, `str2bool` and `optional_int` (utils.py:6-28). They depend on zlib or float parsing, and nothing in the core calls them.
- The `format_timestamp` of app.py (app.py:17-23), which uses `timedelta` and `%06.3f`. It is the parameter `fmt: real -> string` of `GenerateSrt`, `GenerateRawSrt` and `StandardSrt`, because its floating-point formatting is not modelled.
- Floating point. Times are `real`, so rounding error in durations and shares is not modelled.
  - `round(seconds * 1000.0)` is taken on the exact product.
- Python's full Unicode whitespace set. Whitespace is a fixed ASCII set, and `isupper` is `'A'..'Z'`.
- Exceptions, other than as values:
  - the assertion of `utils.format_timestamp` is `ok == false` with the partial output kept;
  - `getSubs`'s exception is `Failure`.
- Attribute-style versus mapping-style access to segments (app.py:157-167), and `hasattr` tests for missing fields. Both shapes become the same datatype, and a missing list is empty.
- `flush=True`, buffering and `seek(0)`. The stream is its whole content.
- Chunker.ChunkWidths: the 26-character bound holds only for chunks closed by the width rule. Chunks closed at a sentence end or at the last token are bounded without their last token, as the code allows them to overflow by it.
- Regrouping.RegroupedKeepsWords: it assumes API words hold no whitespace. A word with inner spaces comes back as several tokens, so whitespace-free words are the case that can be stated as preservation.
