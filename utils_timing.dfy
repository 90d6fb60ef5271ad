/**
  How `write_srt` and `write_vtt` of utils.py share a segment's time among the lines of an
  over-long text: in proportion to each line's word count, a line other than the last lasting at
  least 0.8 seconds, and no line running past the segment's end; when the lines have no words at
  all, evenly.
*/
module TimeAllocation {
  import opened Text
  import opened Transcripts

  /** The shortest a line other than the last may be given, in seconds, before the clamp. */
  const MinDuration: real := 0.8

  /** `sum(len(seg.split()) for seg in segments)`. */
  function TotalWords(lines: seq<string>): nat
  {
    if lines == [] then 0 else TotalWords(lines[..|lines| - 1]) + |Words(lines[|lines| - 1])|
  }

  /** The part of `duration` that `count` out of `totalWords` words earn. */
  function Portion(duration: real, count: nat, totalWords: nat): real
    requires totalWords > 0
  {
    duration * (count as real / totalWords as real)
  }

  /** The share of the segment's duration that line `j`'s word count earns. */
  function Proportional(lines: seq<string>, segStart: real, segEnd: real, totalWords: nat, j: nat): real
    requires j < |lines| && totalWords > 0
  {
    Portion(segEnd - segStart, |Words(lines[j])|, totalWords)
  }

  /** The duration line `j` gets when it starts at `current`. */
  function Duration(lines: seq<string>, segStart: real, segEnd: real, totalWords: nat, j: nat, current: real): real
    requires j < |lines|
  {
    if totalWords > 0 then
      var duration := Proportional(lines, segStart, segEnd, totalWords, j);
      var floored := if duration < MinDuration && j < |lines| - 1 then MinDuration else duration;
      var remainingTime := segEnd - current;
      if floored > remainingTime then remainingTime else floored
    else (segEnd - segStart) / |lines| as real
  }

  /** The cues of lines `j..`, the first starting at `current` and each next where the last ended. */
  function AllocateFrom(lines: seq<string>, segStart: real, segEnd: real, totalWords: nat, j: nat, current: real): seq<Segment>
    decreases |lines| - j
  {
    if j >= |lines| then []
    else
      var endTime := current + Duration(lines, segStart, segEnd, totalWords, j, current);
      [Segment(lines[j], current, endTime)] + AllocateFrom(lines, segStart, segEnd, totalWords, j + 1, endTime)
  }

  /** The cues of the lines over the segment's time `segStart..segEnd`. */
  function Allocation(lines: seq<string>, segStart: real, segEnd: real): seq<Segment>
  {
    AllocateFrom(lines, segStart, segEnd, TotalWords(lines), 0, segStart)
  }

  /** The word count of the lines, as the generator expression sums it. */
  method CountWords(lines: seq<string>) returns (totalWords: nat)
    ensures totalWords == TotalWords(lines)
  {
    totalWords := 0;
    var i := 0;
    while i < |lines|
      invariant 0 <= i <= |lines|
      invariant totalWords == TotalWords(lines[..i])
    {
      assert lines[..i + 1][..i] == lines[..i];
      totalWords := totalWords + |Words(lines[i])|;
      i := i + 1;
    }
    assert lines[..i] == lines;
  }

  /** The loop that advances `current_time` over the lines. */
  method AllocateTimes(lines: seq<string>, segStart: real, segEnd: real) returns (cues: seq<Segment>)
    ensures cues == Allocation(lines, segStart, segEnd)
  {
    var currentTime := segStart;
    var totalWords := CountWords(lines);
    cues := [];
    var j := 0;
    while j < |lines|
      invariant 0 <= j <= |lines|
      invariant cues + AllocateFrom(lines, segStart, segEnd, totalWords, j, currentTime) == Allocation(lines, segStart, segEnd)
    {
      var endTime := AllocateLine(lines, segStart, segEnd, totalWords, j, currentTime);
      AllocateFromNext(lines, segStart, segEnd, totalWords, j, currentTime);
      cues := cues + [Segment(lines[j], currentTime, endTime)];
      currentTime := endTime;
      j := j + 1;
    }
  }

  /** One pass of the loop: the duration of line `j`, floored and clamped, and where it ends. */
  method AllocateLine(lines: seq<string>, segStart: real, segEnd: real, totalWords: nat, j: nat, currentTime: real)
    returns (endTime: real)
    requires j < |lines|
    ensures endTime == currentTime + Duration(lines, segStart, segEnd, totalWords, j, currentTime)
  {
    var segmentDuration := segEnd - segStart;
    var wordCount := |Words(lines[j])|;
    var duration: real;
    if totalWords > 0 {
      var wordRatio := wordCount as real / totalWords as real;
      duration := segmentDuration * wordRatio;
      if duration < MinDuration && j < |lines| - 1 {
        duration := MinDuration;
      }
      var remainingTime := segEnd - currentTime;
      if duration > remainingTime {
        duration := remainingTime;
      }
    } else {
      duration := segmentDuration / |lines| as real;
    }
    endTime := currentTime + duration;
  }

  lemma AllocateFromNext(lines: seq<string>, segStart: real, segEnd: real, totalWords: nat, j: nat, current: real)
    requires j < |lines|
    ensures var endTime := current + Duration(lines, segStart, segEnd, totalWords, j, current);
      AllocateFrom(lines, segStart, segEnd, totalWords, j, current)
      == [Segment(lines[j], current, endTime)] + AllocateFrom(lines, segStart, segEnd, totalWords, j + 1, endTime)
  {
  }

  // ---------------------------------------------------------------- lemmas

  /** One cue per line, in order, the first at `current` and each starting where the one before ended. */
  lemma {:induction false} AllocateFromShape(lines: seq<string>, segStart: real, segEnd: real, totalWords: nat, j: nat, current: real)
    requires j <= |lines|
    ensures var cues := AllocateFrom(lines, segStart, segEnd, totalWords, j, current);
      && |cues| == |lines| - j
      && Texts(cues) == lines[j..]
      && (cues != [] ==> cues[0].start == current)
      && Contiguous(cues)
    decreases |lines| - j
  {
    var cues := AllocateFrom(lines, segStart, segEnd, totalWords, j, current);
    if j < |lines| {
      var endTime := current + Duration(lines, segStart, segEnd, totalWords, j, current);
      var head := [Segment(lines[j], current, endTime)];
      var tail := AllocateFrom(lines, segStart, segEnd, totalWords, j + 1, endTime);
      AllocateFromShape(lines, segStart, segEnd, totalWords, j + 1, endTime);
      assert cues == head + tail;
      ContiguousAppend(head, tail);
      TextsAppend(head, tail);
      assert lines[j..] == [lines[j]] + lines[j + 1..];
    } else {
      assert Texts([]) == [];
    }
  }

  /** With words to share, no cue ends after the segment does: the remaining-time clamp. */
  lemma {:induction false} AllocateFromBounded(lines: seq<string>, segStart: real, segEnd: real, totalWords: nat, j: nat, current: real)
    requires j <= |lines| && totalWords > 0
    ensures EndBy(AllocateFrom(lines, segStart, segEnd, totalWords, j, current), segEnd)
    decreases |lines| - j
  {
    if j < |lines| {
      var endTime := current + Duration(lines, segStart, segEnd, totalWords, j, current);
      var tail := AllocateFrom(lines, segStart, segEnd, totalWords, j + 1, endTime);
      AllocateFromBounded(lines, segStart, segEnd, totalWords, j + 1, endTime);
      assert AllocateFrom(lines, segStart, segEnd, totalWords, j, current) == [Segment(lines[j], current, endTime)] + tail;
    }
  }

  /** Every cue ends by `segEnd`. */
  predicate EndBy(cues: seq<Segment>, segEnd: real) {
    forall k :: 0 <= k < |cues| ==> cues[k].end <= segEnd
  }

  /** Every cue starts no earlier than `segStart`, ends no earlier than it starts, and ends by `segEnd`. */
  predicate Within(cues: seq<Segment>, segStart: real, segEnd: real) {
    forall k :: 0 <= k < |cues| ==> segStart <= cues[k].start <= cues[k].end <= segEnd
  }

  lemma ProportionalNonNegative(lines: seq<string>, segStart: real, segEnd: real, totalWords: nat, j: nat)
    requires j < |lines| && totalWords > 0 && segStart <= segEnd
    ensures Proportional(lines, segStart, segEnd, totalWords, j) >= 0.0
  {
    var ratio := |Words(lines[j])| as real / totalWords as real;
    assert ratio >= 0.0;
    assert (segEnd - segStart) * ratio >= 0.0;
  }

  /** With words to share and a segment that does not end before it starts, every cue lies within the segment. */
  lemma {:induction false} AllocateFromWithin(lines: seq<string>, segStart: real, segEnd: real, totalWords: nat, j: nat, current: real)
    requires j <= |lines| && totalWords > 0 && segStart <= current <= segEnd
    ensures Within(AllocateFrom(lines, segStart, segEnd, totalWords, j, current), segStart, segEnd)
    decreases |lines| - j
  {
    if j < |lines| {
      ProportionalNonNegative(lines, segStart, segEnd, totalWords, j);
      var endTime := current + Duration(lines, segStart, segEnd, totalWords, j, current);
      var tail := AllocateFrom(lines, segStart, segEnd, totalWords, j + 1, endTime);
      AllocateFromWithin(lines, segStart, segEnd, totalWords, j + 1, endTime);
      assert AllocateFrom(lines, segStart, segEnd, totalWords, j, current) == [Segment(lines[j], current, endTime)] + tail;
    }
  }

  /**
    Every line but the last lasts at least 0.8 seconds unless it reaches the segment's end; the
    last is never floored, lasting no longer than its proportional share.
  */
  lemma {:induction false} AllocateFromFloors(lines: seq<string>, segStart: real, segEnd: real, totalWords: nat, j: nat, current: real)
    requires j <= |lines| && totalWords > 0
    ensures var cues := AllocateFrom(lines, segStart, segEnd, totalWords, j, current);
      && (forall k :: 0 <= k < |cues| - 1 ==> cues[k].end - cues[k].start >= MinDuration || cues[k].end == segEnd)
      && (cues != [] ==> cues[|cues| - 1].end - cues[|cues| - 1].start <= Proportional(lines, segStart, segEnd, totalWords, |lines| - 1))
    decreases |lines| - j
  {
    if j < |lines| {
      var endTime := current + Duration(lines, segStart, segEnd, totalWords, j, current);
      AllocateFromFloors(lines, segStart, segEnd, totalWords, j + 1, endTime);
    }
  }

  /** The word counts of the first `j + 1` lines are those of the first `j` and then line `j`'s. */
  lemma TotalWordsNext(lines: seq<string>, j: nat)
    requires j < |lines|
    ensures TotalWords(lines[..j + 1]) == TotalWords(lines[..j]) + |Words(lines[j])|
  {
    assert lines[..j + 1][..j] == lines[..j];
  }

  /** The proportional shares of lines `..j` and of line `j` add up to those of lines `..j + 1`. */
  lemma SharesAdd(d: real, before: nat, count: nat, total: nat)
    requires total > 0
    ensures Portion(d, before, total) + Portion(d, count, total) == Portion(d, before + count, total)
  {
    assert before as real / total as real + count as real / total as real == (before + count) as real / total as real;
  }

  /** No words earn nothing, and all the words earn the whole duration. */
  lemma PortionEnds(d: real, total: nat)
    requires total > 0
    ensures Portion(d, 0, total) == 0.0 && Portion(d, total, total) == d
  {
  }

  /**
    One line of the clamp argument in plain arithmetic: a line that starts at or past the shares so
    far, and is given at least its own share unless clamped, ends at or past the shares with it.
  */
  lemma ClampStep(segStart: real, segEnd: real, current: real, share: real, floored: real, before: real, after: real)
    requires current == segEnd || current >= segStart + before
    requires current <= segEnd && floored >= share >= 0.0 && before + share == after
    ensures var endTime := current + (if floored > segEnd - current then segEnd - current else floored);
      endTime <= segEnd && (endTime == segEnd || endTime >= segStart + after)
  {
  }

  /** The last cue ends at `segEnd`. */
  predicate EndsAt(cues: seq<Segment>, segEnd: real) {
    cues != [] && cues[|cues| - 1].end == segEnd
  }

  /**
    The time is used up: with words to share and a segment that does not end before it starts, the
    last cue ends exactly at the segment's end, because each cue either reaches the end or ends no
    earlier than the proportional shares of the lines so far.
  */
  lemma {:induction false} AllocateFromUsesTime(lines: seq<string>, segStart: real, segEnd: real, j: nat, current: real)
    requires j < |lines| && TotalWords(lines) > 0 && segStart <= segEnd && current <= segEnd
    requires current == segEnd || current >= segStart + Portion(segEnd - segStart, TotalWords(lines[..j]), TotalWords(lines))
    ensures EndsAt(AllocateFrom(lines, segStart, segEnd, TotalWords(lines), j, current), segEnd)
    decreases |lines| - j
  {
    var total := TotalWords(lines);
    var d := segEnd - segStart;
    var share := Proportional(lines, segStart, segEnd, total, j);
    var floored := if share < MinDuration && j < |lines| - 1 then MinDuration else share;
    var endTime := current + Duration(lines, segStart, segEnd, total, j, current);
    ProportionalNonNegative(lines, segStart, segEnd, total, j);
    TotalWordsNext(lines, j);
    SharesAdd(d, TotalWords(lines[..j]), |Words(lines[j])|, total);
    ClampStep(segStart, segEnd, current, share, floored, Portion(d, TotalWords(lines[..j]), total), Portion(d, TotalWords(lines[..j + 1]), total));
    var tail := AllocateFrom(lines, segStart, segEnd, total, j + 1, endTime);
    assert AllocateFrom(lines, segStart, segEnd, total, j, current) == [Segment(lines[j], current, endTime)] + tail;
    if j + 1 < |lines| {
      AllocateFromUsesTime(lines, segStart, segEnd, j + 1, endTime);
    } else {
      assert lines[..j + 1] == lines;
      PortionEnds(d, total);
    }
  }

  /** Without words, the lines split the segment evenly, as the independent even split does. */
  lemma {:induction false} AllocateFromEven(lines: seq<string>, segStart: real, segEnd: real, j: nat)
    requires j <= |lines|
    ensures AllocateFrom(lines, segStart, segEnd, 0, j, Offset(segStart, Share(segEnd - segStart, |lines|), j))
         == EvenSplitFrom(lines, j, segStart, Share(segEnd - segStart, |lines|))
    decreases |lines| - j
  {
    if j < |lines| {
      AllocateFromEven(lines, segStart, segEnd, j + 1);
    }
  }

  /**
    The cues of the lines: one per line, in order, contiguous from the segment's start. With words
    to share, every cue ends by the segment's end; each but the last lasts at least 0.8 seconds or
    reaches the end; the last gets at most its proportional share; and when the segment does not
    end before it starts, the cues lie within it and the last ends at its end. Without words, the
    segment is split evenly.
  */
  lemma {:induction false} AllocationShape(lines: seq<string>, segStart: real, segEnd: real)
    ensures var cues := Allocation(lines, segStart, segEnd);
      && |cues| == |lines|
      && Texts(cues) == lines
      && (cues != [] ==> cues[0].start == segStart)
      && Contiguous(cues)
      && (TotalWords(lines) > 0 ==>
            && (forall k :: 0 <= k < |cues| ==> cues[k].end <= segEnd)
            && (forall k :: 0 <= k < |cues| - 1 ==> cues[k].end - cues[k].start >= MinDuration || cues[k].end == segEnd)
            && cues[|cues| - 1].end - cues[|cues| - 1].start <= Proportional(lines, segStart, segEnd, TotalWords(lines), |lines| - 1)
            && (segStart <= segEnd ==>
                  && (forall k :: 0 <= k < |cues| ==> segStart <= cues[k].start <= cues[k].end <= segEnd)
                  && cues[|cues| - 1].end == segEnd))
      && (TotalWords(lines) == 0 ==> cues == EvenSplit(lines, segStart, segEnd - segStart))
  {
    var total := TotalWords(lines);
    AllocateFromShape(lines, segStart, segEnd, total, 0, segStart);
    assert lines[0..] == lines;
    if total > 0 {
      AllocateFromBounded(lines, segStart, segEnd, total, 0, segStart);
      AllocateFromFloors(lines, segStart, segEnd, total, 0, segStart);
      if segStart <= segEnd {
        AllocateFromWithin(lines, segStart, segEnd, total, 0, segStart);
        assert lines[..0] == [];
        PortionEnds(segEnd - segStart, total);
        AllocateFromUsesTime(lines, segStart, segEnd, 0, segStart);
      }
    } else {
      AllocateFromEven(lines, segStart, segEnd, 0);
    }
  }
}
