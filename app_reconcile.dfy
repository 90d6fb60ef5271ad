/**
  The word-timing reconciliation inlined in app.py's `main`: the API words are filed in a table
  under their stripped text, each with a `used` flag, and every token of a segment takes the first
  unused entry under its punctuation-stripped key, or else an estimate from the segment's span.
  The table lives across all segments of a transcript.
*/
module Reconciliation {
  import opened Wrappers
  import opened Text
  import opened Transcripts

  /** One `{start, end, used}` entry of the table. */
  datatype Timing = Timing(start: real, end: real, used: bool)

  type Table = map<string, seq<Timing>>

  /** The list filed under `key`; a missing key has none. */
  function Entries(table: Table, key: string): seq<Timing>
  {
    if key in table then table[key] else []
  }

  /** The table after filing an API word: a fresh entry at the end of the list of its stripped text. */
  function Recorded(table: Table, w: Word): Table
  {
    table[Strip(w.word) := Entries(table, Strip(w.word)) + [Timing(w.start, w.end, false)]]
  }

  /** The table built from the API words, in order. */
  function TableOf(words: seq<Word>): Table
  {
    if words == [] then map[] else Recorded(TableOf(words[..|words| - 1]), words[|words| - 1])
  }

  /** The API words whose stripped text is `key`, in order. */
  function WordsWithKey(words: seq<Word>, key: string): seq<Word>
  {
    if words == [] then []
    else WordsWithKey(words[..|words| - 1], key) + (if Strip(words[|words| - 1].word) == key then [words[|words| - 1]] else [])
  }

  /** Fresh entries for some words. */
  function Unused(words: seq<Word>): (ts: seq<Timing>)
    ensures |ts| == |words|
    ensures forall k :: 0 <= k < |words| ==> ts[k] == Timing(words[k].start, words[k].end, false)
  {
    seq(|words|, k requires 0 <= k < |words| => Timing(words[k].start, words[k].end, false))
  }

  /** The time span of every entry, whatever its flag. */
  function Times(ts: seq<Timing>): (spans: seq<(real, real)>)
    ensures |spans| == |ts|
    ensures forall k :: 0 <= k < |ts| ==> spans[k] == (ts[k].start, ts[k].end)
  {
    seq(|ts|, k requires 0 <= k < |ts| => (ts[k].start, ts[k].end))
  }

  /** The position of the first entry not yet used. */
  function FirstUnused(ts: seq<Timing>): (r: Option<nat>)
    ensures r.Some? ==> r.value < |ts| && !ts[r.value].used && forall k :: 0 <= k < r.value ==> ts[k].used
    ensures r.None? ==> forall k :: 0 <= k < |ts| ==> ts[k].used
  {
    if ts == [] then None
    else if !ts[0].used then Some(0)
    else match FirstUnused(ts[1..])
      case None => None
      case Some(j) => Some(j + 1)
  }

  /** The outcome of one lookup: the span handed out, if any, and the table afterwards. */
  datatype Lookup = Lookup(found: Option<(real, real)>, table: Table)

  /** A lookup: the first unused entry under `key` is handed out and marked used; otherwise nothing changes. */
  function Take(table: Table, key: string): Lookup
  {
    if key !in table then Lookup(None, table)
    else match FirstUnused(table[key])
      case None => Lookup(None, table)
      case Some(j) => Lookup(Some((table[key][j].start, table[key][j].end)), table[key := table[key][j := table[key][j].(used := true)]])
  }

  /** The used entries of a list come before the unused ones. */
  predicate UsedPrefix(ts: seq<Timing>)
  {
    forall i, j :: 0 <= i < j < |ts| && ts[j].used ==> ts[i].used
  }

  /** Every list of the table is used from the front. */
  predicate Consistent(table: Table)
  {
    forall key :: key in table ==> UsedPrefix(table[key])
  }

  /** How many entries of a list are used. */
  function UsedCount(ts: seq<Timing>): (n: nat)
    ensures n <= |ts|
  {
    if ts == [] then 0 else UsedCount(ts[..|ts| - 1]) + (if ts[|ts| - 1].used then 1 else 0)
  }

  /** The timing table of app.py, a dictionary whose entries' flags are flipped in place. */
  class TimingTable {
    var entries: Table

    constructor ()
      ensures entries == map[]
    {
      entries := map[];
    }

    /** Files an API word under its stripped text. */
    method Record(w: Word)
      modifies this
      ensures entries == Recorded(old(entries), w)
    {
      var wordKey := Strip(w.word);
      if wordKey !in entries {
        entries := entries[wordKey := []];
      }
      entries := entries[wordKey := entries[wordKey] + [Timing(w.start, w.end, false)]];
    }

    /** Hands out the first unused entry under `key`, marking it used. */
    method Consume(key: string) returns (found: Option<(real, real)>)
      modifies this
      ensures Lookup(found, entries) == Take(old(entries), key)
    {
      found := None;
      if key in entries {
        var ts := entries[key];
        var j := 0;
        while j < |ts|
          invariant 0 <= j <= |ts|
          invariant forall k :: 0 <= k < j ==> ts[k].used
        {
          if !ts[j].used {
            assert FirstUnused(ts) == Some(j);
            found := Some((ts[j].start, ts[j].end));
            entries := entries[key := ts[j := ts[j].(used := true)]];
            return;
          }
          j := j + 1;
        }
      }
    }
  }

  /** The table-building loop over the API words. */
  method BuildTable(words: seq<Word>) returns (table: TimingTable)
    ensures fresh(table)
    ensures table.entries == TableOf(words)
  {
    table := new TimingTable();
    var i := 0;
    while i < |words|
      invariant 0 <= i <= |words|
      invariant table.entries == TableOf(words[..i])
    {
      assert words[..i + 1][..i] == words[..i];
      table.Record(words[i]);
      i := i + 1;
    }
    assert words[..i] == words;
  }

  lemma {:induction false} UsedCountAppend(ts: seq<Timing>, t: Timing)
    ensures UsedCount(ts + [t]) == UsedCount(ts) + (if t.used then 1 else 0)
  {
    assert (ts + [t])[..|ts|] == ts;
  }

  /** A list of fresh entries has none used. */
  lemma {:induction false} UnusedCount(words: seq<Word>)
    ensures UsedCount(Unused(words)) == 0
  {
    if words != [] {
      var n := |words|;
      UnusedCount(words[..n - 1]);
      assert Unused(words) == Unused(words[..n - 1]) + [Timing(words[n - 1].start, words[n - 1].end, false)];
      UsedCountAppend(Unused(words[..n - 1]), Timing(words[n - 1].start, words[n - 1].end, false));
    }
  }

  /**
    The table holds, under each key, one fresh entry for every API word whose stripped text is that
    key, in the order of the words, and holds nothing else.
  */
  lemma {:induction false} TableOfEntries(words: seq<Word>, key: string)
    ensures key in TableOf(words) <==> WordsWithKey(words, key) != []
    ensures Entries(TableOf(words), key) == Unused(WordsWithKey(words, key))
  {
    if words != [] {
      var n := |words|;
      TableOfEntries(words[..n - 1], key);
      var before := WordsWithKey(words[..n - 1], key);
      if Strip(words[n - 1].word) == key {
        assert Unused(before + [words[n - 1]]) == Unused(before) + [Timing(words[n - 1].start, words[n - 1].end, false)];
      }
    }
  }

  /** A freshly built table is used from the front, with nothing used. */
  lemma {:induction false} TableOfFresh(words: seq<Word>, key: string)
    ensures Consistent(TableOf(words))
    ensures UsedCount(Entries(TableOf(words), key)) == 0
  {
    forall k | k in TableOf(words)
      ensures UsedPrefix(TableOf(words)[k])
    {
      TableOfEntries(words, k);
    }
    TableOfEntries(words, key);
    UnusedCount(WordsWithKey(words, key));
  }

  /** In a list used from the front, the used entries are exactly those before the count. */
  lemma {:induction false} UsedPrefixCount(ts: seq<Timing>)
    requires UsedPrefix(ts)
    ensures forall k :: 0 <= k < |ts| ==> (ts[k].used <==> k < UsedCount(ts))
  {
    if ts != [] {
      var n := |ts|;
      UsedPrefixCount(ts[..n - 1]);
      assert ts == ts[..n - 1] + [ts[n - 1]];
      UsedCountAppend(ts[..n - 1], ts[n - 1]);
      forall k | 0 <= k < n
        ensures ts[k].used <==> k < UsedCount(ts)
      {
        if k < n - 1 {
          assert ts[..n - 1][k] == ts[k];
        }
      }
    }
  }

  lemma {:induction false} UsedCountOfFlags(ts: seq<Timing>, c: nat)
    requires c <= |ts|
    requires forall k :: 0 <= k < |ts| ==> (ts[k].used <==> k < c)
    ensures UsedCount(ts) == c
    decreases |ts|
  {
    if ts != [] {
      var n := |ts|;
      var init, c' := ts[..n - 1], if c == n then n - 1 else c;
      forall k | 0 <= k < |init|
        ensures init[k].used <==> k < c'
      {
        assert init[k] == ts[k];
      }
      UsedCountOfFlags(init, c');
      assert ts == init + [ts[n - 1]];
      UsedCountAppend(init, ts[n - 1]);
    }
  }

  /**
    A lookup in a list used from the front hands out the entry right after the used ones, exactly
    when there is one, and moves the count on by one; so every entry is handed out at most once,
    in the order it was filed.
  */
  lemma TakeNext(table: Table, key: string)
    requires UsedPrefix(Entries(table, key))
    ensures var ts, r := Entries(table, key), Take(table, key);
      var n := UsedCount(ts);
      && (r.found.Some? <==> n < |ts|)
      && (r.found.Some? ==> r.found.value == (ts[n].start, ts[n].end))
      && UsedPrefix(Entries(r.table, key))
      && UsedCount(Entries(r.table, key)) == (if r.found.Some? then n + 1 else n)
  {
    var ts, r := Entries(table, key), Take(table, key);
    UsedPrefixCount(ts);
    var n := UsedCount(ts);
    if key in table && n < |ts| {
      FirstUnusedIs(ts, n);
      var ts' := Entries(r.table, key);
      assert forall k :: 0 <= k < |ts'| ==> (ts'[k].used <==> k < n + 1);
      UsedCountOfFlags(ts', n + 1);
    }
  }

  lemma {:induction false} FirstUnusedIs(ts: seq<Timing>, n: nat)
    requires n < |ts| && !ts[n].used
    requires forall k :: 0 <= k < n ==> ts[k].used
    ensures FirstUnused(ts) == Some(n)
  {
  }

  /** A lookup touches only the flags of its own key: every span and every other list is kept. */
  lemma TakeKeeps(table: Table, key: string, other: string)
    ensures var r := Take(table, key);
      && r.table.Keys == table.Keys
      && Times(Entries(r.table, other)) == Times(Entries(table, other))
      && (other != key ==> Entries(r.table, other) == Entries(table, other))
  {
  }

  /** A lookup keeps every list of the table used from the front. */
  lemma TakeConsistent(table: Table, key: string)
    requires Consistent(table)
    ensures Consistent(Take(table, key).table)
  {
    TakeNext(table, key);
  }

  /** The index of the first occurrence, as Python's `list.index`. */
  function FirstIndex<T(==)>(xs: seq<T>, x: T): (r: nat)
    requires x in xs
    ensures r < |xs| && xs[r] == x
    ensures forall k :: 0 <= k < r ==> xs[k] != x
  {
    if xs[0] == x then 0 else 1 + FirstIndex(xs[1..], x)
  }

  /** The characters stripped from a token before it is looked up. */
  const MatchPunctuation: set<char> := {'.', ',', '!', '?', ';', ':', '"', '(', ')', '[', ']'}

  /** The lookup key of a segment token. */
  function MatchKey(token: string): string
  {
    StripOf(token, MatchPunctuation)
  }

  /** The tokens of a segment: its stripped text split on whitespace. */
  function SegmentTokens(seg: Segment): seq<string>
  {
    Words(Strip(seg.text))
  }

  /**
    The estimate for an unmatched token: an equal share of the segment for each token, placed at
    the first occurrence of the token's text.
  */
  function Estimate(tokens: seq<string>, i: nat, seg: Segment): Word
    requires i < |tokens|
  {
    var wordDuration := Share(seg.end - seg.start, |tokens|);
    var estimatedStart := Offset(seg.start, wordDuration, FirstIndex(tokens, tokens[i]));
    Word(tokens[i], estimatedStart, estimatedStart + wordDuration)
  }

  /** The estimate as the loop computes it, from its own variables. */
  lemma {:induction false} EstimateAt(tokens: seq<string>, i: nat, seg: Segment, wordIndex: nat, duration: real, wordDuration: real,
                   estimatedStart: real, estimatedEnd: real)
    requires i < |tokens| && wordIndex == FirstIndex(tokens, tokens[i])
    requires duration == seg.end - seg.start && wordDuration == duration / |tokens| as real
    requires estimatedStart == seg.start + (wordIndex as real * wordDuration) && estimatedEnd == estimatedStart + wordDuration
    ensures Estimate(tokens, i, seg) == Word(tokens[i], estimatedStart, estimatedEnd)
  {
    assert Share(seg.end - seg.start, |tokens|) == wordDuration;
    OffsetIsProduct(seg.start, wordDuration, wordIndex);
  }

  /** The timing of token `i`: the span handed out by the table, or else the estimate. */
  function TokenTiming(tokens: seq<string>, i: nat, seg: Segment, found: Option<(real, real)>): (w: Word)
    requires i < |tokens|
    ensures w.word == tokens[i]
    ensures found.Some? ==> (w.start, w.end) == found.value
  {
    match found
    case Some((start, end)) => Word(tokens[i], start, end)
    case None => Estimate(tokens, i, seg)
  }

  /** The timings of the tokens so far and the table they leave. */
  datatype Reconciled = Reconciled(timings: seq<Word>, table: Table)

  /** The first `n` tokens looked up one after another, each in the table the ones before it left. */
  function ReconcileTokens(table: Table, tokens: seq<string>, seg: Segment, n: nat): (r: Reconciled)
    requires n <= |tokens|
    ensures |r.timings| == n
  {
    if n == 0 then Reconciled([], table) else LookUp(ReconcileTokens(table, tokens, seg, n - 1), tokens, n - 1, seg)
  }

  /** Token `i` looked up in the table the tokens before it left. */
  function LookUp(before: Reconciled, tokens: seq<string>, i: nat, seg: Segment): (r: Reconciled)
    requires i < |tokens|
    ensures |r.timings| == |before.timings| + 1
  {
    var lookup := Take(before.table, MatchKey(tokens[i]));
    Reconciled(before.timings + [TokenTiming(tokens, i, seg, lookup.found)], lookup.table)
  }

  /** The reconciliation of one segment against the shared table. */
  method ReconcileSegment(table: TimingTable, segment: Segment) returns (segmentWords: seq<string>, wordTimings: seq<Word>)
    modifies table
    ensures segmentWords == SegmentTokens(segment)
    ensures Reconciled(wordTimings, table.entries) == ReconcileTokens(old(table.entries), segmentWords, segment, |segmentWords|)
  {
    var segmentText := Strip(segment.text);
    segmentWords := Words(segmentText);
    wordTimings := [];
    var i := 0;
    while i < |segmentWords|
      invariant 0 <= i <= |segmentWords|
      invariant Reconciled(wordTimings, table.entries) == ReconcileTokens(old(table.entries), segmentWords, segment, i)
    {
      var timing := LookUpToken(table, segmentWords, i, segment);
      wordTimings := wordTimings + [timing];
      i := i + 1;
    }
  }

  /** The timing of one token: the first unused entry under its stripped key, or else the estimate. */
  method LookUpToken(table: TimingTable, segmentWords: seq<string>, i: nat, segment: Segment) returns (timing: Word)
    requires i < |segmentWords|
    modifies table
    ensures var lookup := Take(old(table.entries), MatchKey(segmentWords[i]));
      timing == TokenTiming(segmentWords, i, segment, lookup.found) && table.entries == lookup.table
  {
    var word := segmentWords[i];
    var cleanWord := StripOf(word, MatchPunctuation);
    var foundTiming := table.Consume(cleanWord);
    match foundTiming {
      case Some((start, end)) =>
        timing := Word(word, start, end);
      case None =>
        var wordIndex := FirstIndex(segmentWords, word);
        var totalWords := |segmentWords|;
        var duration := segment.end - segment.start;
        var wordDuration := duration / totalWords as real;
        var estimatedStart := segment.start + (wordIndex as real * wordDuration);
        var estimatedEnd := estimatedStart + wordDuration;
        EstimateAt(segmentWords, i, segment, wordIndex, duration, wordDuration, estimatedStart, estimatedEnd);
        timing := Word(word, estimatedStart, estimatedEnd);
    }
  }

  /** Every token keeps its own text, and token `k` looks up its stripped key in the table the tokens before it left. */
  lemma {:induction false} ReconciledAt(table: Table, tokens: seq<string>, seg: Segment, n: nat, k: nat)
    requires k < n <= |tokens|
    ensures var r := ReconcileTokens(table, tokens, seg, n);
      var lookup := Take(ReconcileTokens(table, tokens, seg, k).table, MatchKey(tokens[k]));
      r.timings[k] == TokenTiming(tokens, k, seg, lookup.found) && r.timings[k].word == tokens[k]
  {
    var r, before := ReconcileTokens(table, tokens, seg, n), ReconcileTokens(table, tokens, seg, n - 1);
    assert r == LookUp(before, tokens, n - 1, seg);
    if k < n - 1 {
      ReconciledAt(table, tokens, seg, n - 1, k);
      assert r.timings[k] == before.timings[k];
    }
  }

  /** Reconciling a segment keeps every list of the table used from the front. */
  lemma {:induction false} ReconcileConsistent(table: Table, tokens: seq<string>, seg: Segment, n: nat)
    requires n <= |tokens|
    requires Consistent(table)
    ensures Consistent(ReconcileTokens(table, tokens, seg, n).table)
  {
    if n > 0 {
      ReconcileConsistent(table, tokens, seg, n - 1);
      TakeConsistent(ReconcileTokens(table, tokens, seg, n - 1).table, MatchKey(tokens[n - 1]));
    }
  }

  /**
    An unmatched token lasts one `n`-th of the segment and starts `m` such shares in, `m` being the
    position of the first token with the same text; so repeated unmatched tokens share one span.
  */
  lemma EstimateSpan(tokens: seq<string>, i: nat, m: nat, seg: Segment)
    requires i < |tokens| && m <= i && tokens[m] == tokens[i]
    requires forall k :: 0 <= k < m ==> tokens[k] != tokens[i]
    ensures var d := (seg.end - seg.start) / |tokens| as real;
      Estimate(tokens, i, seg) == Word(tokens[i], seg.start + m as real * d, seg.start + m as real * d + d)
      && Estimate(tokens, m, seg) == Estimate(tokens, i, seg)
  {
    assert FirstIndex(tokens, tokens[i]) == m;
    OffsetIsProduct(seg.start, Share(seg.end - seg.start, |tokens|), m);
  }
}
