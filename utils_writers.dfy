/**
  The whisper-style writers of utils.py. `write_srt` and `write_vtt` print every segment of a
  transcript into a text file as one cue, or, when its stripped text is longer than a set,
  non-zero `maxLineWidth`, as the lines of the long-text split sharing the segment's time.
  `write_raw_srt` prints one cue per segment, and `write_txt` one stripped text per line.
  `format_timestamp` asserts a non-negative time: the cue where it fails is not printed, and
  the writer stops there with what it printed before.
*/
module Writers {
  import opened Wrappers
  import opened Text
  import opened Transcripts
  import Timestamps
  import LongText
  import LengthSplit
  import TimeAllocation
  import AppSrt

  /** The message of the assertion in `format_timestamp`. */
  const NegativeTimestamp: string := "non-negative timestamp expected"

  /** The header line `write_vtt` prints first, with the newline `print` adds. */
  const VttHeader: string := "WEBVTT\n\n"

  /** A text file open for writing, filled by `print(..., file=file)`. */
  class TextStream {
    var content: string

    constructor ()
      ensures content == ""
    {
      content := "";
    }

    /** `print(s, file=self)`: the text, then a newline. */
    method Print(s: string)
      modifies this
      ensures content == old(content) + s + "\n"
    {
      content := content + s + "\n";
    }
  }

  // ---------------------------------------------------------------- the cues of a transcript

  /** `maxLineWidth and len(text) > maxLineWidth`: a width that is set, not zero, and exceeded. */
  predicate Wraps(text: string, maxLineWidth: Option<int>) {
    maxLineWidth.Some? && maxLineWidth.value != 0 && |text| > maxLineWidth.value
  }

  /** The cues of one segment: its stripped text over its own times, or an over-long text's lines sharing them. */
  function SegmentCues(seg: Segment, maxLineWidth: Option<int>): seq<Segment>
  {
    var text := Strip(seg.text);
    if Wraps(text, maxLineWidth) then
      TimeAllocation.Allocation(LongText.LongTextLines(text, maxLineWidth.value), seg.start, seg.end)
    else [Segment(text, seg.start, seg.end)]
  }

  /** The cues `write_srt` and `write_vtt` print, segment after segment. */
  function WriterCues(segments: seq<Segment>, maxLineWidth: Option<int>): seq<Segment>
  {
    if segments == [] then []
    else WriterCues(segments[..|segments| - 1], maxLineWidth) + SegmentCues(segments[|segments| - 1], maxLineWidth)
  }

  /** One cue per segment, its text stripped and its times its own. */
  function StrippedSegments(segments: seq<Segment>): (cues: seq<Segment>)
    ensures |cues| == |segments|
  {
    seq(|segments|, k requires 0 <= k < |segments| => Segment(Strip(segments[k].text), segments[k].start, segments[k].end))
  }

  /** The body of the loop over the segments, up to printing: strip, split when over-long, share the time. */
  method SegmentCuesOf(seg: Segment, maxLineWidth: Option<int>) returns (cues: seq<Segment>)
    ensures cues == SegmentCues(seg, maxLineWidth)
  {
    var text := Strip(seg.text);
    if maxLineWidth.Some? && maxLineWidth.value != 0 && |text| > maxLineWidth.value {
      var lines := LongText.SplitLongText(text, maxLineWidth.value);
      cues := TimeAllocation.AllocateTimes(lines, seg.start, seg.end);
    } else {
      cues := [Segment(text, seg.start, seg.end)];
    }
  }

  // ---------------------------------------------------------------- what is printed

  /** The two subtitle formats: SRT numbers its cues and writes `HH:MM:SS,mmm`; VTT writes `[HH:]MM:SS.mmm`. */
  datatype Style = Srt | Vtt

  /** A cue whose two times `format_timestamp` accepts. */
  predicate Good(cue: Segment) {
    cue.start >= 0.0 && cue.end >= 0.0
  }

  predicate AllGood(cues: seq<Segment>) {
    forall k :: 0 <= k < |cues| ==> Good(cues[k])
  }

  /** `text.replace('-->', '->')`. */
  function CueText(text: string): string
  {
    ReplaceAll(text, "-->", "->")
  }

  /** The `start --> end` line of a cue. */
  function TimeLine(style: Style, cue: Segment): string
    requires Good(cue)
  {
    match style
    case Srt => Timestamps.Stamp(cue.start, true, ",") + " --> " + Timestamps.Stamp(cue.end, true, ",")
    case Vtt => Timestamps.Stamp(cue.start, false, ".") + " --> " + Timestamps.Stamp(cue.end, false, ".")
  }

  /** The text one cue's `print` call is given: the SRT number line, the time line and the text, each ended by a newline. */
  function BlockBody(style: Style, index: nat, cue: Segment): string
    requires Good(cue)
  {
    (if style == Srt then NatToString(index) + "\n" else "") + TimeLine(style, cue) + "\n" + CueText(cue.text) + "\n"
  }

  /** What a cue's `print` call is given, from its subtitle index and the cue. */
  type Renderer = (nat, Segment) --> string

  /** A renderer that accepts every cue `format_timestamp` accepts. */
  ghost predicate Renders(render: Renderer) {
    forall i: nat, cue: Segment :: Good(cue) ==> render.requires(i, cue)
  }

  /** The renderer of a format. */
  function Render(style: Style): (render: Renderer)
    ensures Renders(render)
  {
    (i: nat, cue: Segment) requires Good(cue) => BlockBody(style, i, cue)
  }

  /**
    What the cues print numbered from `first`: per cue, what `render` gives and the newline `print`
    adds, up to the first cue with a negative time, where `format_timestamp` raises.
  */
  function Output(render: Renderer, cues: seq<Segment>, first: nat): string
    requires Renders(render)
    decreases |cues|
  {
    if cues == [] || !Good(cues[0]) then "" else render(first, cues[0]) + "\n" + Output(render, cues[1..], first + 1)
  }

  /** What a writer prints before its cues: `WEBVTT` and a blank line for VTT, nothing for SRT. */
  function Header(style: Style): string
  {
    if style == Vtt then VttHeader else ""
  }

  /** What `write_srt` or `write_vtt` adds to the file for the cues: the header, then the blocks numbered from 1. */
  function Written(style: Style, cues: seq<Segment>): string
  {
    Header(style) + Output(Render(style), cues, 1)
  }

  /** What `write_txt` adds to the file: each segment's stripped text on a line of its own. */
  function TxtOutput(segments: seq<Segment>): string
  {
    if segments == [] then ""
    else TxtOutput(segments[..|segments| - 1]) + Strip(segments[|segments| - 1].text) + "\n"
  }

  // ---------------------------------------------------------------- the writers

  /** The printing loop over one segment's cues, the subtitle index counting on from `first`. */
  method PrintCues(file: TextStream, render: Renderer, cues: seq<Segment>, first: nat) returns (ok: bool, next: nat)
    requires Renders(render)
    modifies file
    ensures ok == AllGood(cues)
    ensures file.content == old(file.content) + Output(render, cues, first)
    ensures ok ==> next == first + |cues|
  {
    var i := 0;
    while i < |cues|
      invariant 0 <= i <= |cues|
      invariant AllGood(cues[..i])
      invariant file.content == old(file.content) + Output(render, cues[..i], first)
    {
      var cue := cues[i];
      if !(cue.start >= 0.0 && cue.end >= 0.0) {
        OutputAt(render, cues, i, first);
        return false, first + i;
      }
      ghost var before := file.content;
      file.Print(render(first + i, cue));
      OutputSnoc(render, cues, i, first);
      AppendAssoc(before, render(first + i, cue), "\n");
      i := i + 1;
    }
    assert cues[..i] == cues;
    return true, first + |cues|;
  }

  /** The loop over the segments that `write_srt` and `write_vtt` share; `ok` is false where `format_timestamp` raises. */
  method WriteCues(file: TextStream, render: Renderer, segments: seq<Segment>, maxLineWidth: Option<int>) returns (ok: bool)
    requires Renders(render)
    modifies file
    ensures ok == AllGood(WriterCues(segments, maxLineWidth))
    ensures file.content == old(file.content) + Output(render, WriterCues(segments, maxLineWidth), 1)
  {
    var subtitleIndex := 1;
    var i := 0;
    while i < |segments|
      invariant 0 <= i <= |segments|
      invariant AllGood(WriterCues(segments[..i], maxLineWidth))
      invariant subtitleIndex == |WriterCues(segments[..i], maxLineWidth)| + 1
      invariant file.content == old(file.content) + Output(render, WriterCues(segments[..i], maxLineWidth), 1)
    {
      var printed;
      printed, subtitleIndex := WriteSegment(file, render, segments, i, maxLineWidth, subtitleIndex, old(file.content));
      if !printed {
        return false;
      }
      i := i + 1;
    }
    assert segments[..i] == segments;
    return true;
  }

  /** One pass of the loop over the segments: the segment's cues, then their printing, numbered on from `index`. */
  method WriteSegment(file: TextStream, render: Renderer, segments: seq<Segment>, i: nat, maxLineWidth: Option<int>,
                      index: nat, ghost content: string) returns (printed: bool, next: nat)
    requires Renders(render) && i < |segments|
    requires AllGood(WriterCues(segments[..i], maxLineWidth)) && index == |WriterCues(segments[..i], maxLineWidth)| + 1
    requires file.content == content + Output(render, WriterCues(segments[..i], maxLineWidth), 1)
    modifies file
    ensures printed ==> AllGood(WriterCues(segments[..i + 1], maxLineWidth))
    ensures printed ==> next == |WriterCues(segments[..i + 1], maxLineWidth)| + 1
    ensures printed ==> file.content == content + Output(render, WriterCues(segments[..i + 1], maxLineWidth), 1)
    ensures !printed ==> !AllGood(WriterCues(segments, maxLineWidth))
    ensures !printed ==> file.content == content + Output(render, WriterCues(segments, maxLineWidth), 1)
  {
    var cues := SegmentCuesOf(segments[i], maxLineWidth);
    printed, next := PrintCues(file, render, cues, index);
    if printed {
      WriterCuesStep(render, segments, i, maxLineWidth, cues, content);
    } else {
      WriterCuesStop(render, segments, i, maxLineWidth, cues, content);
    }
  }

  /** `write_srt`. */
  method WriteSrt(file: TextStream, segments: seq<Segment>, maxLineWidth: Option<int>) returns (ok: bool)
    modifies file
    ensures ok == AllGood(WriterCues(segments, maxLineWidth))
    ensures file.content == old(file.content) + Written(Srt, WriterCues(segments, maxLineWidth))
  {
    ok := WriteCues(file, Render(Srt), segments, maxLineWidth);
  }

  /** `write_vtt`: the header line, then the cues. */
  method WriteVtt(file: TextStream, segments: seq<Segment>, maxLineWidth: Option<int>) returns (ok: bool)
    modifies file
    ensures ok == AllGood(WriterCues(segments, maxLineWidth))
    ensures file.content == old(file.content) + Written(Vtt, WriterCues(segments, maxLineWidth))
  {
    PrintHeader(file);
    ok := WriteCues(file, Render(Vtt), segments, maxLineWidth);
    AppendAssoc(old(file.content), Header(Vtt), Output(Render(Vtt), WriterCues(segments, maxLineWidth), 1));
  }

  /** `print("WEBVTT\n", file=file)`. */
  method PrintHeader(file: TextStream)
    modifies file
    ensures file.content == old(file.content) + Header(Vtt)
  {
    file.Print("WEBVTT\n");
    assert "WEBVTT\n" + "\n" == VttHeader;
    AppendAssoc(old(file.content), "WEBVTT\n", "\n");
  }

  /** `write_raw_srt`: one numbered cue per segment, its stripped text over its own times. */
  method WriteRawSrt(file: TextStream, segments: seq<Segment>) returns (ok: bool)
    modifies file
    ensures ok == AllGood(StrippedSegments(segments))
    ensures file.content == old(file.content) + Output(Render(Srt), StrippedSegments(segments), 1)
  {
    ok := PrintStripped(file, Render(Srt), segments);
  }

  /** The loop of `write_raw_srt`, `subtitle_index` counting from 1. */
  method PrintStripped(file: TextStream, render: Renderer, segments: seq<Segment>) returns (ok: bool)
    requires Renders(render)
    modifies file
    ensures ok == AllGood(StrippedSegments(segments))
    ensures file.content == old(file.content) + Output(render, StrippedSegments(segments), 1)
  {
    ghost var cues := StrippedSegments(segments);
    var subtitleIndex := 1;
    var i := 0;
    while i < |segments|
      invariant 0 <= i <= |segments|
      invariant subtitleIndex == i + 1
      invariant AllGood(cues[..i])
      invariant file.content == old(file.content) + Output(render, cues[..i], 1)
    {
      var segment := segments[i];
      var cue := Segment(Strip(segment.text), segment.start, segment.end);
      assert cue == cues[i];
      if !(cue.start >= 0.0 && cue.end >= 0.0) {
        OutputAt(render, cues, i, 1);
        return false;
      }
      ghost var before := file.content;
      file.Print(render(subtitleIndex, cue));
      OutputSnoc(render, cues, i, 1);
      AppendAssoc(before, render(subtitleIndex, cue), "\n");
      subtitleIndex := subtitleIndex + 1;
      i := i + 1;
    }
    assert cues[..i] == cues;
    return true;
  }

  /** `write_txt`: every segment's stripped text on its own line. */
  method WriteTxt(file: TextStream, segments: seq<Segment>)
    modifies file
    ensures file.content == old(file.content) + TxtOutput(segments)
  {
    var i := 0;
    while i < |segments|
      invariant 0 <= i <= |segments|
      invariant file.content == old(file.content) + TxtOutput(segments[..i])
    {
      assert segments[..i + 1][..i] == segments[..i];
      file.Print(Strip(segments[i].text));
      i := i + 1;
    }
    assert segments[..i] == segments;
  }

  // ---------------------------------------------------------------- lemmas: output

  lemma AllGoodAppend(a: seq<Segment>, b: seq<Segment>)
    requires AllGood(a) && AllGood(b)
    ensures AllGood(a + b)
  {
  }

  lemma AllGoodSuffix(a: seq<Segment>, b: seq<Segment>)
    requires !AllGood(b)
    ensures !AllGood(a + b)
  {
    var k :| 0 <= k < |b| && !Good(b[k]);
    assert (a + b)[|a| + k] == b[k];
  }

  lemma AllGoodPrefix(a: seq<Segment>, b: seq<Segment>)
    requires !AllGood(a)
    ensures !AllGood(a + b)
  {
    var k :| 0 <= k < |a| && !Good(a[k]);
    assert (a + b)[k] == a[k];
  }

  /** Every cue of `a` good exactly when its first is and every later one is. */
  lemma AllGoodCons(a: seq<Segment>)
    requires a != []
    ensures AllGood(a) <==> Good(a[0]) && AllGood(a[1..])
  {
    if Good(a[0]) && AllGood(a[1..]) {
      forall k | 1 <= k < |a|
        ensures Good(a[k])
      {
        assert a[k] == a[1..][k - 1];
      }
    }
  }

  /** The blocks of `a + b`, every cue of `a` having non-negative times, are those of `a` and then those of `b`, numbered on. */
  lemma {:induction false} OutputAppend(render: Renderer, a: seq<Segment>, b: seq<Segment>, first: nat)
    requires Renders(render) && AllGood(a)
    ensures Output(render, a + b, first) == Output(render, a, first) + Output(render, b, first + |a|)
    decreases |a|
  {
    if a == [] {
      assert a + b == b;
    } else {
      var rest := a[1..];
      AllGoodCons(a);
      assert (a + b)[0] == a[0];
      assert (a + b)[1..] == rest + b;
      OutputAppend(render, rest, b, first + 1);
      assert first + 1 + |rest| == first + |a|;
      AppendAssoc(render(first, a[0]) + "\n", Output(render, rest, first + 1), Output(render, b, first + |a|));
    }
  }

  /** When a cue of `a` has a negative time, the printing of `a + b` stops inside `a`. */
  lemma {:induction false} OutputStops(render: Renderer, a: seq<Segment>, b: seq<Segment>, first: nat)
    requires Renders(render) && !AllGood(a)
    ensures Output(render, a + b, first) == Output(render, a, first)
    decreases |a|
  {
    var rest := a[1..];
    AllGoodCons(a);
    assert (a + b)[0] == a[0];
    assert (a + b)[1..] == rest + b;
    if Good(a[0]) {
      OutputStops(render, rest, b, first + 1);
    }
  }

  /** The blocks of the first `i + 1` cues, all good: those of the first `i`, then cue `i`'s, numbered `first + i`. */
  lemma {:induction false} OutputSnoc(render: Renderer, cues: seq<Segment>, i: nat, first: nat)
    requires Renders(render) && i < |cues| && AllGood(cues[..i]) && Good(cues[i])
    ensures AllGood(cues[..i + 1])
    ensures Output(render, cues[..i + 1], first) == Output(render, cues[..i], first) + (render(first + i, cues[i]) + "\n")
  {
    assert cues[..i + 1] == cues[..i] + [cues[i]];
    OutputAppend(render, cues[..i], [cues[i]], first);
    assert [cues[i]][1..] == [];
  }

  /** Printing stops at cue `i` when it is the first with a negative time. */
  lemma {:induction false} OutputAt(render: Renderer, cues: seq<Segment>, i: nat, first: nat)
    requires Renders(render) && i < |cues| && AllGood(cues[..i]) && !Good(cues[i])
    ensures !AllGood(cues)
    ensures Output(render, cues, first) == Output(render, cues[..i], first)
  {
    assert cues == cues[..i] + cues[i..];
    OutputAppend(render, cues[..i], cues[i..], first);
    assert cues[i..][0] == cues[i];
  }

  /** Block `k` of the cues, all with non-negative times: what `render` gives for number `first + k`, and a newline. */
  function Blocks(render: Renderer, cues: seq<Segment>, first: nat): seq<string>
    requires Renders(render) && AllGood(cues)
  {
    seq(|cues|, k requires 0 <= k < |cues| => render(first + k, cues[k]) + "\n")
  }

  /** With every time non-negative, a writer prints the blocks of all cues in order, numbered consecutively from `first`. */
  lemma {:induction false} OutputBlocks(render: Renderer, cues: seq<Segment>, first: nat)
    requires Renders(render) && AllGood(cues)
    ensures Output(render, cues, first) == Concat(Blocks(render, cues, first))
    decreases |cues|
  {
    if cues != [] {
      AllGoodCons(cues);
      OutputBlocks(render, cues[1..], first + 1);
      assert Blocks(render, cues, first) == [render(first, cues[0]) + "\n"] + Blocks(render, cues[1..], first + 1);
    }
  }

  /** When cue `k` is the first with a negative time, a writer prints the blocks of the cues before it, and nothing after. */
  lemma {:induction false} OutputBlocksStop(render: Renderer, cues: seq<Segment>, k: nat, first: nat)
    requires Renders(render) && k < |cues| && AllGood(cues[..k]) && !Good(cues[k])
    ensures Output(render, cues, first) == Concat(Blocks(render, cues[..k], first))
  {
    OutputAt(render, cues, k, first);
    OutputBlocks(render, cues[..k], first);
  }

  /** An SRT block starts with its number line; a VTT block has no number and is the same whatever its index. */
  lemma {:induction false} BlockNumbering(cue: Segment, i: nat, j: nat)
    requires Good(cue)
    ensures BlockBody(Srt, i, cue)[..|NatToString(i)| + 1] == NatToString(i) + "\n"
    ensures BlockBody(Vtt, i, cue) == BlockBody(Vtt, j, cue)
  {
    var number := NatToString(i) + "\n";
    var rest := TimeLine(Srt, cue) + "\n" + CueText(cue.text) + "\n";
    assert BlockBody(Srt, i, cue) == number + rest;
  }

  /** What `replace` does to a text without `-->`: nothing. */
  lemma CueTextAbsent(text: string)
    requires forall k :: !OccursAt(text, "-->", k)
    ensures CueText(text) == text
  {
    ReplaceAllAbsent(text, "-->", "->");
  }

  /** The replacement is one pass: `--->` becomes `-->`, so the cue text can still hold an arrow. */
  lemma CueTextSinglePass()
    ensures CueText("--->") == "-->"
  {
    var s := "--->";
    assert !OccursAt(s, "-->", 0) by {
      assert s[0..3][2] == '-' && "-->"[2] == '>';
    }
    assert OccursAt(s, "-->", 1) by {
      assert s[1..4] == "-->";
    }
    assert FindFrom(s, "-->", 0) == Some(1);
    assert s[..1] == "-";
    assert s[4..] == "";
    assert FindFrom("", "-->", 0) == None;
    assert SplitOn(s, "-->") == ["-", ""];
  }

  // ---------------------------------------------------------------- lemmas: cues

  /** Printing `cues` after `done`, all of whose cues are good, prints the blocks of `done + cues`. */
  lemma OutputCombine(render: Renderer, done: seq<Segment>, cues: seq<Segment>, content: string)
    requires Renders(render) && AllGood(done)
    ensures content + Output(render, done, 1) + Output(render, cues, |done| + 1) == content + Output(render, done + cues, 1)
  {
    OutputAppend(render, done, cues, 1);
    AppendAssoc(content, Output(render, done, 1), Output(render, cues, |done| + 1));
  }

  /** One more segment printed in full: the cues so far and its cues, numbered on. */
  lemma WriterCuesStep(render: Renderer, segments: seq<Segment>, i: nat, maxLineWidth: Option<int>, cues: seq<Segment>, content: string)
    requires Renders(render) && i < |segments| && cues == SegmentCues(segments[i], maxLineWidth)
    requires AllGood(WriterCues(segments[..i], maxLineWidth)) && AllGood(cues)
    ensures AllGood(WriterCues(segments[..i + 1], maxLineWidth))
    ensures |WriterCues(segments[..i + 1], maxLineWidth)| == |WriterCues(segments[..i], maxLineWidth)| + |cues|
    ensures content + Output(render, WriterCues(segments[..i], maxLineWidth), 1)
              + Output(render, cues, |WriterCues(segments[..i], maxLineWidth)| + 1)
         == content + Output(render, WriterCues(segments[..i + 1], maxLineWidth), 1)
  {
    var done := WriterCues(segments[..i], maxLineWidth);
    WriterCuesNext(segments, i, maxLineWidth);
    OutputCombine(render, done, cues, content);
    AllGoodAppend(done, cues);
  }

  /** A segment with a cue `format_timestamp` rejects: what is printed up to it is all the writer prints. */
  lemma {:induction false} WriterCuesStop(render: Renderer, segments: seq<Segment>, i: nat, maxLineWidth: Option<int>, cues: seq<Segment>, content: string)
    requires Renders(render) && i < |segments| && cues == SegmentCues(segments[i], maxLineWidth)
    requires AllGood(WriterCues(segments[..i], maxLineWidth)) && !AllGood(cues)
    ensures !AllGood(WriterCues(segments, maxLineWidth))
    ensures content + Output(render, WriterCues(segments[..i], maxLineWidth), 1)
              + Output(render, cues, |WriterCues(segments[..i], maxLineWidth)| + 1)
         == content + Output(render, WriterCues(segments, maxLineWidth), 1)
  {
    var done := WriterCues(segments[..i], maxLineWidth);
    WriterCuesNext(segments, i, maxLineWidth);
    OutputCombine(render, done, cues, content);
    AllGoodSuffix(done, cues);
    WriterCuesStopped(render, segments, i + 1, maxLineWidth);
  }

  /** Once the cues of the first `n` segments hold a negative time, the later segments print nothing. */
  lemma {:induction false} WriterCuesStopped(render: Renderer, segments: seq<Segment>, n: nat, maxLineWidth: Option<int>)
    requires Renders(render) && n <= |segments| && !AllGood(WriterCues(segments[..n], maxLineWidth))
    ensures !AllGood(WriterCues(segments, maxLineWidth))
    ensures Output(render, WriterCues(segments, maxLineWidth), 1) == Output(render, WriterCues(segments[..n], maxLineWidth), 1)
    decreases |segments| - n
  {
    if n == |segments| {
      assert segments[..n] == segments;
    } else {
      var done := WriterCues(segments[..n], maxLineWidth);
      WriterCuesNext(segments, n, maxLineWidth);
      OutputStops(render, done, SegmentCues(segments[n], maxLineWidth), 1);
      AllGoodPrefix(done, SegmentCues(segments[n], maxLineWidth));
      WriterCuesStopped(render, segments, n + 1, maxLineWidth);
    }
  }

  lemma {:induction false} WriterCuesNext(segments: seq<Segment>, i: nat, maxLineWidth: Option<int>)
    requires i < |segments|
    ensures WriterCues(segments[..i + 1], maxLineWidth) == WriterCues(segments[..i], maxLineWidth) + SegmentCues(segments[i], maxLineWidth)
  {
    assert segments[..i + 1][..i] == segments[..i];
  }

  /** Without a width, `write_srt` prints exactly the cues of `write_raw_srt`. */
  lemma {:induction false} RawIsUnwrapped(segments: seq<Segment>)
    ensures WriterCues(segments, None) == StrippedSegments(segments)
  {
    if segments != [] {
      var n := |segments|;
      RawIsUnwrapped(segments[..n - 1]);
      assert StrippedSegments(segments) == StrippedSegments(segments[..n - 1]) + [StrippedSegments(segments)[n - 1]];
    }
  }

  /** Where no stripped text exceeds the width, every segment gives one cue: its stripped text over its own times. */
  lemma {:induction false} UnwrappedCues(segments: seq<Segment>, maxLineWidth: Option<int>)
    requires forall k :: 0 <= k < |segments| ==> !Wraps(Strip(segments[k].text), maxLineWidth)
    ensures WriterCues(segments, maxLineWidth) == StrippedSegments(segments)
  {
    if segments != [] {
      var n := |segments|;
      var init := segments[..n - 1];
      assert forall k :: 0 <= k < n - 1 ==> init[k] == segments[k];
      UnwrappedCues(init, maxLineWidth);
      assert StrippedSegments(segments) == StrippedSegments(init) + [StrippedSegments(segments)[n - 1]];
    }
  }

  /** The lines of a segment that wraps, over the segment's time. */
  lemma WrappedCues(seg: Segment, maxLineWidth: Option<int>)
    requires Wraps(Strip(seg.text), maxLineWidth)
    ensures var cues := SegmentCues(seg, maxLineWidth);
      && Texts(cues) == LongText.LongTextLines(Strip(seg.text), maxLineWidth.value)
      && (cues != [] ==> cues[0].start == seg.start)
      && Contiguous(cues)
  {
    var lines := LongText.LongTextLines(Strip(seg.text), maxLineWidth.value);
    TimeAllocation.AllocateFromShape(lines, seg.start, seg.end, TimeAllocation.TotalWords(lines), 0, seg.start);
    assert lines[0..] == lines;
  }

  /** The cues of a segment carry its tokens in order. */
  lemma SegmentCuesWords(seg: Segment, maxLineWidth: Option<int>)
    ensures WordsOfAll(Texts(SegmentCues(seg, maxLineWidth))) == Words(seg.text)
  {
    var text := Strip(seg.text);
    WordsOfStrip(seg.text);
    if Wraps(text, maxLineWidth) {
      WrappedCues(seg, maxLineWidth);
      LongText.LongTextLinesShape(text, maxLineWidth.value);
    } else {
      assert Texts(SegmentCues(seg, maxLineWidth)) == [text];
      LengthSplit.WordsOfAllCons(text, []);
    }
  }

  /**
    A segment that wraps is one cue per line of the long-text split, contiguous from the
    segment's start, each line fitting the width or a single token, and none lost or repeated.
  */
  lemma SegmentCuesShape(seg: Segment, maxLineWidth: Option<int>)
    requires Wraps(Strip(seg.text), maxLineWidth)
    ensures var cues := SegmentCues(seg, maxLineWidth);
      && WordsOfAll(Texts(cues)) == Words(seg.text)
      && Texts(cues) == LongText.LongTextLines(Strip(seg.text), maxLineWidth.value)
      && (cues != [] ==> cues[0].start == seg.start)
      && Contiguous(cues)
      && (forall c :: c in Texts(cues) ==> LengthSplit.FitsOrSingle(c, maxLineWidth.value))
  {
    WrappedCues(seg, maxLineWidth);
    SegmentCuesWords(seg, maxLineWidth);
    LongText.LongTextLinesShape(Strip(seg.text), maxLineWidth.value);
  }

  /** The cues of the writers carry the tokens of every segment, in order, none lost or repeated. */
  lemma {:induction false} WriterCuesWords(segments: seq<Segment>, maxLineWidth: Option<int>)
    ensures WordsOfAll(Texts(WriterCues(segments, maxLineWidth))) == AppSrt.TokensOf(segments)
  {
    if segments == [] {
      assert Texts([]) == [];
    } else {
      var n := |segments|;
      var before, last := WriterCues(segments[..n - 1], maxLineWidth), SegmentCues(segments[n - 1], maxLineWidth);
      WriterCuesWords(segments[..n - 1], maxLineWidth);
      SegmentCuesWords(segments[n - 1], maxLineWidth);
      TextsAppend(before, last);
      WordsOfAllAppend(Texts(before), Texts(last));
    }
  }

  /** An amount advanced by a non-negative share never falls below where it started. */
  lemma {:induction false} OffsetAtLeast(from: real, share: real, j: nat)
    requires share >= 0.0
    ensures Offset(from, share, j) >= from
  {
    if j > 0 {
      OffsetAtLeast(from, share, j - 1);
    }
  }

  /** An even split from a non-negative time over a non-negative span has no negative time. */
  lemma EvenSplitGood(texts: seq<string>, from: real, span: real)
    requires from >= 0.0 && span >= 0.0
    ensures AllGood(EvenSplit(texts, from, span))
  {
    var share := Share(span, |texts|);
    assert share >= 0.0;
    forall k | 0 <= k < |texts|
      ensures Good(EvenSplit(texts, from, span)[k])
    {
      EvenSplitFromAt(texts, 0, from, share, k);
      OffsetAtLeast(from, share, k);
    }
  }

  /** A segment that starts at a non-negative time and does not end before it starts gives cues `format_timestamp` accepts. */
  lemma SegmentCuesGood(seg: Segment, maxLineWidth: Option<int>)
    requires 0.0 <= seg.start <= seg.end
    ensures AllGood(SegmentCues(seg, maxLineWidth))
  {
    var text := Strip(seg.text);
    if Wraps(text, maxLineWidth) {
      var lines := LongText.LongTextLines(text, maxLineWidth.value);
      TimeAllocation.AllocationShape(lines, seg.start, seg.end);
      if TimeAllocation.TotalWords(lines) == 0 {
        EvenSplitGood(lines, seg.start, seg.end - seg.start);
      }
    }
  }

  /** Segments that start at non-negative times and do not end before they start never make a writer fail. */
  lemma {:induction false} WriterCuesGood(segments: seq<Segment>, maxLineWidth: Option<int>)
    requires forall k :: 0 <= k < |segments| ==> 0.0 <= segments[k].start <= segments[k].end
    ensures AllGood(WriterCues(segments, maxLineWidth))
  {
    if segments != [] {
      var n := |segments|;
      WriterCuesGood(segments[..n - 1], maxLineWidth);
      SegmentCuesGood(segments[n - 1], maxLineWidth);
      AllGoodAppend(WriterCues(segments[..n - 1], maxLineWidth), SegmentCues(segments[n - 1], maxLineWidth));
    }
  }

  /** The text file holds the tokens of every segment, in order. */
  lemma {:induction false} TxtOutputWords(segments: seq<Segment>)
    ensures Words(TxtOutput(segments)) == AppSrt.TokensOf(segments)
  {
    if segments != [] {
      var n := |segments|;
      var before, text := TxtOutput(segments[..n - 1]), Strip(segments[n - 1].text);
      TxtOutputWords(segments[..n - 1]);
      WordsOfStrip(segments[n - 1].text);
      WordsAroundSpace(before + text, '\n', "");
      assert before + text + "\n" == before + text + ['\n'] + "";
      TxtOutputLast(before, text);
    }
  }

  lemma {:induction false} TxtOutputLast(before: string, text: string)
    requires before == [] || before[|before| - 1] == '\n'
    ensures Words(before + text) == Words(before) + Words(text)
  {
    if before != [] {
      var init := before[..|before| - 1];
      assert before == init + ['\n'];
      WordsAroundSpace(init, '\n', text);
      WordsAroundSpace(init, '\n', "");
      assert init + ['\n'] + "" == before;
      assert init + ['\n'] + text == before + text;
      assert Words("") == [];
      assert Words(before) == Words(init);
    } else {
      assert before + text == text;
    }
  }
}
