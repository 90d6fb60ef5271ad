/**
  How `write_srt` and `write_vtt` of utils.py break an over-long segment text into lines: the
  text is cut at every `. `, the `.` is given back to every part but the last, a part that fits the
  width is kept whole, and a longer part is packed greedily word by word.
*/
module LongText {
  import opened Text
  import LengthSplit

  /** The separator of `text.split('. ')`. */
  const SentenceSeparator: string := ". "

  /** The parts with `.` appended to every part but the last. */
  function WithPeriods(parts: seq<string>): (r: seq<string>)
    ensures |r| == |parts|
  {
    seq(|parts|, k requires 0 <= k < |parts| => if k < |parts| - 1 then parts[k] + "." else parts[k])
  }

  /** The sentence parts of a text. */
  function SentenceParts(text: string): seq<string>
  {
    WithPeriods(SplitOn(text, SentenceSeparator))
  }

  /** The split at `. `, then the loop that appends `.` to `sentence_parts[i]` in place. */
  method SplitSentences(text: string) returns (sentenceParts: seq<string>)
    ensures sentenceParts == SentenceParts(text)
  {
    sentenceParts := SplitOn(text, SentenceSeparator);
    ghost var parts := sentenceParts;
    var i := 0;
    while i < |sentenceParts| - 1
      invariant |sentenceParts| == |parts| && 0 <= i <= |parts| - 1
      invariant forall k :: 0 <= k < i ==> sentenceParts[k] == parts[k] + "."
      invariant forall k :: i <= k < |parts| ==> sentenceParts[k] == parts[k]
    {
      sentenceParts := sentenceParts[i := sentenceParts[i] + "."];
      i := i + 1;
    }
    assert forall k :: 0 <= k < |parts| ==> sentenceParts[k] == WithPeriods(parts)[k];
  }

  /**
    The greedy packing of a part's tokens `words` when `current` is the line being built: a token
    joins `current` unless the result is wider than `width` and `current` is not empty, in which
    case `current` is closed (stripped) and the token starts the next line. An over-long first
    token thus starts a line on its own.
  */
  function PackFrom(words: seq<string>, width: int, current: string): seq<string>
    decreases |words|
  {
    if words == [] then (if current != "" then [Strip(current)] else [])
    else
      var test := if current != "" then current + " " + words[0] else words[0];
      if |test| > width && current != "" then [Strip(current)] + PackFrom(words[1..], width, words[0])
      else PackFrom(words[1..], width, test)
  }

  /** The lines a part longer than the width is packed into. */
  function Packed(part: string, width: int): seq<string>
  {
    PackFrom(Words(part), width, "")
  }

  /** The lines of one sentence part: the part itself if it fits, else its packed lines. */
  function PartLines(part: string, width: int): seq<string>
  {
    if |part| <= width then [part] else Packed(part, width)
  }

  /** The lines of the parts, in order. */
  function LinesOf(parts: seq<string>, width: int): seq<string>
  {
    if parts == [] then [] else LinesOf(parts[..|parts| - 1], width) + PartLines(parts[|parts| - 1], width)
  }

  /** The lines an over-long segment text is broken into. */
  function LongTextLines(text: string, width: int): seq<string>
  {
    LinesOf(SentenceParts(text), width)
  }

  /** The word-packing loop over one part. */
  method PackWords(part: string, width: int) returns (lines: seq<string>)
    ensures lines == Packed(part, width)
  {
    var partWords := Words(part);
    lines := [];
    var currentSegment := "";
    var i := 0;
    while i < |partWords|
      invariant 0 <= i <= |partWords|
      invariant lines + PackFrom(partWords[i..], width, currentSegment) == Packed(part, width)
    {
      var word := partWords[i];
      assert partWords[i..][1..] == partWords[i + 1..];
      var testSegment := if currentSegment != "" then currentSegment + " " + word else word;
      if |testSegment| > width && currentSegment != "" {
        lines := lines + [Strip(currentSegment)];
        currentSegment := word;
      } else {
        currentSegment := testSegment;
      }
      i := i + 1;
    }
    if currentSegment != "" {
      lines := lines + [Strip(currentSegment)];
    }
  }

  /** The loop over the sentence parts: whole parts that fit, packed lines for the others. */
  method SplitLongText(text: string, width: int) returns (segments: seq<string>)
    ensures segments == LongTextLines(text, width)
  {
    var sentenceParts := SplitSentences(text);
    segments := [];
    var i := 0;
    while i < |sentenceParts|
      invariant 0 <= i <= |sentenceParts|
      invariant segments == LinesOf(sentenceParts[..i], width)
    {
      var sentencePart := sentenceParts[i];
      assert sentenceParts[..i + 1][..i] == sentenceParts[..i];
      if |sentencePart| <= width {
        segments := segments + [sentencePart];
      } else {
        var packed := PackWords(sentencePart, width);
        segments := segments + packed;
      }
      i := i + 1;
    }
    assert sentenceParts[..i] == sentenceParts;
  }

  // ---------------------------------------------------------------- sentence parts

  lemma {:induction false} JoinWithPeriods(parts: seq<string>)
    requires |parts| >= 1
    ensures Join(" ", WithPeriods(parts)) == Join(SentenceSeparator, parts)
    decreases |parts|
  {
    if |parts| > 1 {
      var r := WithPeriods(parts);
      assert r[1..] == WithPeriods(parts[1..]);
      JoinWithPeriods(parts[1..]);
    }
  }

  /** A piece free of `. ` stays free of it once `.` is appended. */
  lemma PeriodKeepsFree(p: string)
    requires forall k: nat :: !OccursAt(p, SentenceSeparator, k)
    ensures forall k: nat :: !OccursAt(p + ".", SentenceSeparator, k)
  {
    forall k: nat | OccursAt(p + ".", SentenceSeparator, k)
      ensures false
    {
      var q := p + ".";
      assert q[k + 1] == ' ';
      assert k + 2 <= |p|;
      assert p[k..k + 2] == q[k..k + 2];
      assert OccursAt(p, SentenceSeparator, k);
    }
  }

  /**
    The sentence parts, joined by single spaces, give the text back; every part but the last ends
    with `.`; and no part holds a `. `, so each is one sentence of the text.
  */
  lemma SentencePartsShape(text: string)
    ensures var parts := SentenceParts(text);
      && |parts| >= 1
      && Join(" ", parts) == text
      && (forall k :: 0 <= k < |parts| - 1 ==> parts[k] != [] && parts[k][|parts[k]| - 1] == '.')
      && (forall k, i: nat :: 0 <= k < |parts| ==> !OccursAt(parts[k], SentenceSeparator, i))
  {
    var raw := SplitOn(text, SentenceSeparator);
    var parts := SentenceParts(text);
    JoinWithPeriods(raw);
    JoinSplitOn(text, SentenceSeparator);
    SplitOnPiecesFree(text, SentenceSeparator);
    forall k | 0 <= k < |parts|
      ensures forall i: nat :: !OccursAt(parts[k], SentenceSeparator, i)
    {
      assert raw[k] in raw;
      if k < |parts| - 1 {
        PeriodKeepsFree(raw[k]);
      }
    }
  }

  // ---------------------------------------------------------------- packing

  /** The packed lines carry the tokens of `current` and then `words`, in order. */
  lemma {:induction false} PackFromWords(words: seq<string>, width: int, current: string)
    requires IsWordList(words)
    ensures WordsOfAll(PackFrom(words, width, current)) == Words(current) + words
    decreases |words|
  {
    WordsOfStrip(current);
    if words == [] {
      if current != "" {
        LengthSplit.WordsOfAllCons(Strip(current), []);
      }
    } else {
      var w, rest := words[0], words[1..];
      assert words == [w] + rest;
      var test := if current != "" then current + " " + w else w;
      assert test == current + (if current != [] then " " else "") + w;
      LengthSplit.ExtendChunk(current, w);
      if |test| > width && current != "" {
        PackFromWords(rest, width, w);
        LengthSplit.WordsOfAllCons(Strip(current), PackFrom(rest, width, w));
        WordsOfWord(w);
      } else {
        PackFromWords(rest, width, test);
        var before := Words(current);
        assert Words(test) == before + [w];
        AppendAssoc(before, [w], rest);
      }
    }
  }

  /** Every packed line has a token, and fits the width or is a single token. */
  lemma {:induction false} PackFromFit(words: seq<string>, width: int, current: string)
    requires IsWordList(words)
    requires current == "" || (Words(current) != [] && LengthSplit.FitsOrSingle(current, width))
    ensures forall c :: c in PackFrom(words, width, current) ==> Words(c) != [] && LengthSplit.FitsOrSingle(c, width)
    decreases |words|
  {
    WordsOfStrip(current);
    if words != [] {
      var w := words[0];
      WordsOfWord(w);
      var test := if current != "" then current + " " + w else w;
      assert test == current + (if current != [] then " " else "") + w;
      LengthSplit.ExtendChunk(current, w);
      if |test| > width && current != "" {
        PackFromFit(words[1..], width, w);
      } else {
        PackFromFit(words[1..], width, test);
      }
    }
  }

  /** A part's lines carry its tokens in order, and each fits the width or is a single token. */
  lemma {:induction false} PartLinesShape(part: string, width: int)
    ensures WordsOfAll(PartLines(part, width)) == Words(part)
    ensures forall c :: c in PartLines(part, width) ==> LengthSplit.FitsOrSingle(c, width)
  {
    if |part| <= width {
      LengthSplit.WordsOfAllCons(part, []);
    } else {
      PackFromWords(Words(part), width, "");
      PackFromFit(Words(part), width, "");
      assert Words("") == [];
    }
  }

  lemma {:induction false} LinesOfShape(parts: seq<string>, width: int)
    ensures WordsOfAll(LinesOf(parts, width)) == WordsOfAll(parts)
    ensures forall c :: c in LinesOf(parts, width) ==> LengthSplit.FitsOrSingle(c, width)
    decreases |parts|
  {
    if parts != [] {
      var init, last := parts[..|parts| - 1], parts[|parts| - 1];
      LinesOfShape(init, width);
      PartLinesShape(last, width);
      WordsOfAllAppend(LinesOf(init, width), PartLines(last, width));
      WordsOfAllAppend(init, [last]);
      LengthSplit.WordsOfAllCons(last, []);
      assert init + [last] == parts;
    }
  }

  /**
    The lines of an over-long text carry its tokens, in order, none lost or repeated; and every
    line fits the width or is a single token.
  */
  lemma {:induction false} LongTextLinesShape(text: string, width: int)
    ensures WordsOfAll(LongTextLines(text, width)) == Words(text)
    ensures forall c :: c in LongTextLines(text, width) ==> LengthSplit.FitsOrSingle(c, width)
  {
    LinesOfShape(SentenceParts(text), width);
    SentencePartsShape(text);
    WordsOfJoinSpace(SentenceParts(text));
  }
}
