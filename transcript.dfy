/** The records the subtitle code passes around. */
module Transcripts {

  /** A word with its own timestamps, as the transcription API returns it (also a reconciled token). */
  datatype Word = Word(word: string, start: real, end: real)

  /**
    A stretch of text over a time span: an API segment, a `{start, end, text}` record,
    or a cue built by the segmenters.
  */
  datatype Segment = Segment(text: string, start: real, end: real)

  /** A verbose transcription result; an absent or empty list of words or segments is the empty sequence. */
  datatype Transcript = Transcript(words: seq<Word>, segments: seq<Segment>)

  /** The text of every cue, in order. */
  function Texts(cues: seq<Segment>): (texts: seq<string>)
    ensures |texts| == |cues|
    ensures forall k :: 0 <= k < |cues| ==> texts[k] == cues[k].text
  {
    seq(|cues|, k requires 0 <= k < |cues| => cues[k].text)
  }

  /** Each cue ends where the next one starts. */
  predicate Contiguous(cues: seq<Segment>) {
    forall k :: 0 <= k < |cues| - 1 ==> cues[k].end == cues[k + 1].start
  }

  lemma ContiguousAppend(a: seq<Segment>, b: seq<Segment>)
    requires Contiguous(a) && Contiguous(b)
    requires a != [] && b != [] ==> a[|a| - 1].end == b[0].start
    ensures Contiguous(a + b)
  {
    var c := a + b;
    forall k | 0 <= k < |c| - 1
      ensures c[k].end == c[k + 1].start
    {
      if k < |a| - 1 {
        assert c[k] == a[k] && c[k + 1] == a[k + 1];
      } else if k == |a| - 1 {
        assert c[k] == a[k] && c[k + 1] == b[0];
      } else {
        assert c[k] == b[k - |a|] && c[k + 1] == b[k - |a| + 1];
      }
    }
  }

  /** `from` advanced by `j` shares, one share at a time. */
  function Offset(from: real, share: real, j: nat): real
  {
    if j == 0 then from else Offset(from, share, j - 1) + share
  }

  lemma {:induction false} OffsetIsProduct(from: real, share: real, j: nat)
    ensures Offset(from, share, j) == from + j as real * share
  {
    if j > 0 {
      OffsetIsProduct(from, share, j - 1);
      assert (j - 1) as real * share + share == j as real * share;
    }
  }

  /** Cue `j` of an even split: it starts `j` shares after `from` and lasts one share. */
  function Slot(text: string, from: real, share: real, j: nat): Segment
  {
    Segment(text, Offset(from, share, j), Offset(from, share, j) + share)
  }

  /** An `n`-th of `span`; nothing is shared among no texts. */
  function Share(span: real, n: nat): real
  {
    if n == 0 then 0.0 else span / n as real
  }

  /** The slots of `texts[j..]`. */
  function EvenSplitFrom(texts: seq<string>, j: nat, from: real, share: real): (cues: seq<Segment>)
    ensures |cues| == if j <= |texts| then |texts| - j else 0
    decreases |texts| - j
  {
    if j >= |texts| then [] else [Slot(texts[j], from, share, j)] + EvenSplitFrom(texts, j + 1, from, share)
  }

  /** `texts` sharing the span of length `span` from `from` evenly, in order. */
  function EvenSplit(texts: seq<string>, from: real, span: real): (cues: seq<Segment>)
    ensures |cues| == |texts|
  {
    EvenSplitFrom(texts, 0, from, Share(span, |texts|))
  }

  lemma WholeShares(span: real, n: nat)
    requires n > 0
    ensures n as real * Share(span, n) == span
  {
  }

  lemma {:induction false} WholeOffset(from: real, span: real, n: nat)
    requires n > 0
    ensures Offset(from, Share(span, n), n) == from + span
  {
    OffsetIsProduct(from, Share(span, n), n);
    WholeShares(span, n);
  }

  /** Element `j - j0` of the slots from `j0` is slot `j`. */
  lemma {:induction false} EvenSplitFromAt(texts: seq<string>, j0: nat, from: real, share: real, j: nat)
    requires j0 <= j < |texts|
    ensures EvenSplitFrom(texts, j0, from, share)[j - j0] == Slot(texts[j], from, share, j)
    decreases j - j0
  {
    if j0 < j {
      EvenSplitFromAt(texts, j0 + 1, from, share, j);
    }
  }

  lemma {:induction false} EvenSplitFromSpan(texts: seq<string>, j: nat, from: real, share: real)
    requires j < |texts|
    ensures var cues := EvenSplitFrom(texts, j, from, share);
      Contiguous(cues) && cues[0].start == Offset(from, share, j)
      && cues[|cues| - 1].end == Offset(from, share, |texts|) && Texts(cues) == texts[j..]
    decreases |texts| - j
  {
    var cues := EvenSplitFrom(texts, j, from, share);
    var head := [Slot(texts[j], from, share, j)];
    if j + 1 < |texts| {
      var tail := EvenSplitFrom(texts, j + 1, from, share);
      EvenSplitFromSpan(texts, j + 1, from, share);
      ContiguousAppend(head, tail);
      TextsAppend(head, tail);
      assert cues[|cues| - 1] == tail[|tail| - 1];
      assert texts[j..] == [texts[j]] + texts[j + 1..];
    } else {
      assert cues == head;
      assert texts[j..] == [texts[j]];
    }
  }

  /** An even split of some texts is contiguous, covers exactly the span and carries the texts in order. */
  lemma EvenSplitSpan(texts: seq<string>, from: real, span: real)
    requires texts != []
    ensures var cues := EvenSplit(texts, from, span);
      Contiguous(cues) && cues[0].start == from && cues[|cues| - 1].end == from + span && Texts(cues) == texts
  {
    EvenSplitFromSpan(texts, 0, from, Share(span, |texts|));
    WholeOffset(from, span, |texts|);
    assert texts[0..] == texts;
  }

  lemma TextsAppend(a: seq<Segment>, b: seq<Segment>)
    ensures Texts(a + b) == Texts(a) + Texts(b)
  {
    assert forall k :: 0 <= k < |a + b| ==> Texts(a + b)[k] == (Texts(a) + Texts(b))[k];
  }

  /** Extending a prefix of `whole` by its next element. */
  lemma AppendNext<T>(before: seq<T>, whole: seq<T>, j: nat, x: T)
    requires j < |whole| && whole[j] == x
    ensures before + whole[..j] + [x] == before + whole[..j + 1]
  {
    assert whole[..j + 1] == whole[..j] + [x];
  }
}
