/** `split_text_at_punctuation` of app.py: it cuts after a `.` or `!` that a space follows. */
module PunctuationSplit {
  import opened Wrappers
  import opened Text

  /** A match of the pattern `[.!] ` at position `i`. */
  predicate DelimiterAt(s: string, i: nat) {
    i + 1 < |s| && (s[i] == '.' || s[i] == '!') && s[i + 1] == ' '
  }

  /** The leftmost match of `[.!] ` at or after `i`. */
  function FindDelimiter(s: string, i: nat): (r: Option<nat>)
    requires i <= |s|
    ensures r.Some? ==> i <= r.value && DelimiterAt(s, r.value)
    ensures r.Some? ==> forall k :: i <= k < r.value ==> !DelimiterAt(s, k)
    ensures r.None? ==> forall k :: i <= k ==> !DelimiterAt(s, k)
    decreases |s| - i
  {
    if i + 1 >= |s| then None
    else if DelimiterAt(s, i) then Some(i)
    else FindDelimiter(s, i + 1)
  }

  /**
    `re.split(r'([.!] )', s)`: the text between successive non-overlapping matches, with each
    match kept (the pattern has a capturing group), so texts sit at even and matches at odd positions.
  */
  function RegexSplit(s: string): (parts: seq<string>)
    ensures |parts| % 2 == 1
    decreases |s|
  {
    match FindDelimiter(s, 0)
    case None => [s]
    case Some(i) => [s[..i], s[i..i + 2]] + RegexSplit(s[i + 2..])
  }

  /**
    The parts of `re.split` concatenate back to the text, and every part at an odd position is a
    match of the pattern: texts and delimiters alternate.
  */
  lemma {:induction false} RegexSplitShape(s: string)
    ensures Concat(RegexSplit(s)) == s
    ensures forall k :: 0 <= k < |RegexSplit(s)| && k % 2 == 1 ==> |RegexSplit(s)[k]| == 2 && DelimiterAt(RegexSplit(s)[k], 0)
    decreases |s|
  {
    match FindDelimiter(s, 0)
    case None =>
    case Some(i) =>
      var rest := RegexSplit(s[i + 2..]);
      RegexSplitShape(s[i + 2..]);
      var parts := [s[..i], s[i..i + 2]] + rest;
      assert parts == RegexSplit(s);
      assert Concat(parts) == s[..i] + (s[i..i + 2] + Concat(rest)) by {
        assert parts[1..] == [s[i..i + 2]] + rest;
        assert parts[1..][1..] == rest;
      }
      assert s == s[..i] + (s[i..i + 2] + s[i + 2..]);
      forall k | 0 <= k < |parts| && k % 2 == 1
        ensures |parts[k]| == 2 && DelimiterAt(parts[k], 0)
      {
        if k >= 2 {
          assert parts[k] == rest[k - 2];
        }
      }
  }

  /** `[x.strip()]` when that is non-empty, otherwise nothing. */
  function Kept(x: string): seq<string>
  {
    if Strip(x) != [] then [Strip(x)] else []
  }

  /** Each piece stripped, blank ones dropped. */
  function KeepAll(raw: seq<string>): seq<string>
  {
    if raw == [] then [] else KeepAll(raw[..|raw| - 1]) + Kept(raw[|raw| - 1])
  }

  /** The stretches of text up to and including each `.` or `!` that a space follows, then the rest. */
  function RawSentences(s: string): (raw: seq<string>)
    ensures |raw| >= 1
    decreases |s|
  {
    match FindDelimiter(s, 0)
    case None => [s]
    case Some(i) => [s[..i + 1]] + RawSentences(s[i + 2..])
  }

  /** What `split_text_at_punctuation` returns: the stretches of `RawSentences`, stripped, without blank ones. */
  function PunctuationPieces(s: string): seq<string>
  {
    KeepAll(RawSentences(s))
  }

  /**
    The text the loop of `split_text_at_punctuation` accumulates, from position `i` of the list
    `re.split` returns: `odd` says whether position `i` holds a delimiter (whose trailing space
    `rstrip` removes), `current` is the stretch being built.
  */
  function ListStretches(parts: seq<string>, current: string, odd: bool): seq<string>
    decreases |parts|
  {
    if parts == [] then [current]
    else if !odd then ListStretches(parts[1..], current + parts[0], true)
    else [current + TrimRight(parts[0])] + ListStretches(parts[1..], "", false)
  }

  lemma {:induction false} KeepAllAppend(a: seq<string>, b: seq<string>)
    ensures KeepAll(a + b) == KeepAll(a) + KeepAll(b)
    decreases |b|
  {
    if b == [] {
      assert a + b == a;
    } else {
      var c := b[..|b| - 1];
      assert (a + b)[..|a + b| - 1] == a + c;
      assert (a + b)[|a + b| - 1] == b[|b| - 1];
      KeepAllAppend(a, c);
    }
  }

  /** A text and then a delimiter close one stretch, the delimiter's trailing space removed. */
  lemma {:induction false} ListStretchesPair(a: string, d: string, rest: seq<string>)
    requires |d| == 2 && !IsSpace(d[0]) && d[1] == ' '
    ensures ListStretches([a, d] + rest, "", false) == [a + [d[0]]] + ListStretches(rest, "", false)
  {
    var parts := [a, d] + rest;
    assert parts[1..] == [d] + rest;
    assert ([d] + rest)[1..] == rest;
    assert "" + a == a;
    assert d == [d[0]] + [' '];
    assert TrimRight(d) == TrimRight([d[0]]);
    assert [d[0]][..0] == [];
  }

  /** Walking the list `re.split` returns rebuilds the stretches of the text. */
  lemma {:induction false} ListStretchesOfRegexSplit(s: string)
    ensures ListStretches(RegexSplit(s), "", false) == RawSentences(s)
    decreases |s|
  {
    match FindDelimiter(s, 0)
    case None =>
      assert ListStretches([s], "", false) == ListStretches([], "" + s, true);
      assert "" + s == s;
    case Some(k) =>
      var rest := s[k + 2..];
      ListStretchesPair(s[..k], s[k..k + 2], RegexSplit(rest));
      assert s[..k] + [s[k]] == s[..k + 1];
      ListStretchesOfRegexSplit(rest);
  }

  /** `split_text_at_punctuation`: `re.split`, then the loop over its pieces. */
  method SplitTextAtPunctuation(text: string) returns (result: seq<string>)
    ensures result == PunctuationPieces(text)
  {
    var segments := RegexSplit(text);
    result := JoinStretches(segments);
    ListStretchesOfRegexSplit(text);
  }

  /**
    The loop of `split_text_at_punctuation` over the list `re.split` returned: texts at even
    positions are accumulated, a delimiter at an odd position closes the stretch.
  */
  method JoinStretches(segments: seq<string>) returns (result: seq<string>)
    ensures result == KeepAll(ListStretches(segments, "", false))
  {
    result := [];
    var current := "";
    var i := 0;
    ghost var stretches: seq<string> := [];
    while i < |segments|
      invariant 0 <= i <= |segments|
      invariant i % 2 == 0 ==> current == ""
      invariant stretches + ListStretches(segments[i..], current, i % 2 == 1) == ListStretches(segments, "", false)
      invariant result == KeepAll(stretches)
    {
      current, result, stretches := JoinSegment(segments, i, current, result, stretches);
      i := i + 1;
    }
    result := KeepStretch(result, stretches, current);
  }

  /** One pass of the loop: a text at an even position extends the stretch, a delimiter closes it. */
  method JoinSegment(segments: seq<string>, i: nat, current: string, result: seq<string>, ghost stretches: seq<string>)
    returns (current': string, result': seq<string>, ghost stretches': seq<string>)
    requires i < |segments| && (i % 2 == 0 ==> current == "") && result == KeepAll(stretches)
    ensures (i + 1) % 2 == 0 ==> current' == ""
    ensures result' == KeepAll(stretches')
    ensures stretches' + ListStretches(segments[i + 1..], current', (i + 1) % 2 == 1)
         == stretches + ListStretches(segments[i..], current, i % 2 == 1)
  {
    if i % 2 == 0 {
      assert (i + 1) % 2 == 1;
      ListStretchesStep(segments, i, current, false);
      current', result', stretches' := current + segments[i], result, stretches;
    } else {
      assert (i + 1) % 2 == 0;
      ListStretchesStep(segments, i, current, true);
      var closed := current + TrimRight(segments[i]);
      AppendAssoc(stretches, [closed], ListStretches(segments[i + 1..], "", false));
      result' := KeepStretch(result, stretches, closed);
      current', stretches' := "", stretches + [closed];
    }
  }

  /** The end of a stretch: `segments.append(current.strip())` when that is non-empty. */
  method KeepStretch(result: seq<string>, ghost stretches: seq<string>, current: string) returns (result': seq<string>)
    requires result == KeepAll(stretches)
    ensures result' == KeepAll(stretches + [current])
  {
    assert (stretches + [current])[..|stretches|] == stretches;
    if Strip(current) != [] {
      result' := result + [Strip(current)];
    } else {
      result' := result;
    }
  }

  lemma {:induction false} ListStretchesStep(parts: seq<string>, i: nat, current: string, odd: bool)
    requires i < |parts|
    ensures !odd ==> ListStretches(parts[i..], current, odd) == ListStretches(parts[i + 1..], current + parts[i], true)
    ensures odd ==> ListStretches(parts[i..], current, odd) == [current + TrimRight(parts[i])] + ListStretches(parts[i + 1..], "", false)
  {
    assert parts[i..][1..] == parts[i + 1..];
  }

  /** A piece that ends a sentence. */
  predicate EndsPiece(p: string) {
    p != [] && (p[|p| - 1] == '.' || p[|p| - 1] == '!')
  }

  lemma {:induction false} KeptWords(x: string)
    ensures forall p :: p in Kept(x) ==> p != [] && Stripped(p)
    ensures WordsOfAll(Kept(x)) == Words(x)
  {
    WordsOfStrip(x);
    var r := Strip(x);
    if r != [] {
      assert Kept(x) == [r];
      assert WordsOfAll([r]) == Words(r) + WordsOfAll([]);
    } else {
      assert Kept(x) == [];
      assert Words(r) == [];
    }
  }

  /** A stretch ending in a `.` or `!` survives stripping as one piece that still ends with it. */
  lemma KeptSentence(x: string)
    requires EndsPiece(x)
    ensures Kept(x) == [Strip(x)] && EndsPiece(Strip(x))
  {
    StripKeepsLast(x);
  }

  /** Every stretch but the last ends with its delimiter's `.` or `!`. */
  lemma {:induction false} RawSentencesEnd(s: string)
    ensures forall k :: 0 <= k < |RawSentences(s)| - 1 ==> EndsPiece(RawSentences(s)[k])
    decreases |s|
  {
    match FindDelimiter(s, 0)
    case None =>
    case Some(i) =>
      var rest := s[i + 2..];
      RawSentencesEnd(rest);
      var raw := RawSentences(s);
      assert raw == [s[..i + 1]] + RawSentences(rest);
      forall k | 0 <= k < |raw| - 1
        ensures EndsPiece(raw[k])
      {
        if k > 0 {
          assert raw[k] == RawSentences(rest)[k - 1];
        }
      }
  }

  /** The stretches hold the text's tokens, in order. */
  lemma {:induction false} RawSentencesWords(s: string)
    ensures WordsOfAll(RawSentences(s)) == Words(s)
    decreases |s|
  {
    match FindDelimiter(s, 0)
    case None =>
      assert WordsOfAll([s]) == Words(s) + WordsOfAll([]);
    case Some(i) =>
      var head, rest := s[..i + 1], s[i + 2..];
      RawSentencesWords(rest);
      assert RawSentences(s) == [head] + RawSentences(rest);
      assert s == head + [' '] + rest;
      WordsAroundSpace(head, ' ', rest);
  }

  /** Stripping and dropping blanks leaves non-empty stripped pieces with the same tokens. */
  lemma {:induction false} KeepAllShape(raw: seq<string>)
    ensures forall p :: p in KeepAll(raw) ==> p != [] && Stripped(p)
    ensures WordsOfAll(KeepAll(raw)) == WordsOfAll(raw)
    decreases |raw|
  {
    if raw != [] {
      var init, last := raw[..|raw| - 1], raw[|raw| - 1];
      KeepAllShape(init);
      KeptWords(last);
      WordsOfAllAppend(KeepAll(init), Kept(last));
      assert raw == init + [last];
      WordsOfAllAppend(init, [last]);
      assert WordsOfAll([last]) == Words(last) + WordsOfAll([]);
    }
  }

  /** When every stretch but the last ends a sentence, so does every piece but the last. */
  lemma {:induction false} KeepAllEnds(raw: seq<string>)
    requires forall k :: 0 <= k < |raw| - 1 ==> EndsPiece(raw[k])
    ensures forall k :: 0 <= k < |KeepAll(raw)| - 1 ==> EndsPiece(KeepAll(raw)[k])
    ensures (forall k :: 0 <= k < |raw| ==> EndsPiece(raw[k])) ==> forall k :: 0 <= k < |KeepAll(raw)| ==> EndsPiece(KeepAll(raw)[k])
    decreases |raw|
  {
    if raw != [] {
      var init, last := raw[..|raw| - 1], raw[|raw| - 1];
      KeepAllEnds(init);
      if EndsPiece(last) {
        KeptSentence(last);
      }
    }
  }

  /**
    Every piece is non-empty and stripped, every piece but the last ends with `.` or `!`,
    and the pieces carry exactly the tokens of the text, in order.
  */
  lemma {:induction false} PunctuationPiecesShape(s: string)
    ensures forall p :: p in PunctuationPieces(s) ==> p != [] && Stripped(p)
    ensures forall k :: 0 <= k < |PunctuationPieces(s)| - 1 ==> EndsPiece(PunctuationPieces(s)[k])
    ensures WordsOfAll(PunctuationPieces(s)) == Words(s)
  {
    RawSentencesEnd(s);
    RawSentencesWords(s);
    KeepAllShape(RawSentences(s));
    KeepAllEnds(RawSentences(s));
  }
}

/** `split_text_by_length` of app.py: it packs tokens greedily under a width. */
module LengthSplit {
  import opened Text

  /**
    The chunks `split_text_by_length` produces from the tokens `words` when `current` is the chunk
    being built: a token joins `current` while the result fits in `maxLength`; otherwise `current`
    is closed and the token starts the next chunk, or, when nothing is being built, the over-long
    token becomes a chunk on its own.
  */
  function LengthChunksFrom(words: seq<string>, maxLength: int, current: string): seq<string>
    decreases |words|
  {
    if words == [] then (if current != [] then [current] else [])
    else
      var test := current + (if current != [] then " " else "") + words[0];
      if |test| <= maxLength then LengthChunksFrom(words[1..], maxLength, test)
      else if current != [] then [current] + LengthChunksFrom(words[1..], maxLength, words[0])
      else [words[0]] + LengthChunksFrom(words[1..], maxLength, "")
  }

  function LengthChunks(text: string, maxLength: int): seq<string>
  {
    LengthChunksFrom(Words(text), maxLength, "")
  }

  method SplitTextByLength(text: string, maxLength: int) returns (segments: seq<string>)
    ensures segments == LengthChunks(text, maxLength)
  {
    var words := Words(text);
    segments := [];
    var current := "";
    var i := 0;
    while i < |words|
      invariant 0 <= i <= |words|
      invariant segments + LengthChunksFrom(words[i..], maxLength, current) == LengthChunks(text, maxLength)
    {
      var word := words[i];
      assert words[i..][1..] == words[i + 1..];
      var test := current + (if current != "" then " " else "") + word;
      if |test| <= maxLength {
        current := test;
      } else if current != "" {
        segments := segments + [current];
        current := word;
      } else {
        segments := segments + [word];
        current := "";
      }
      i := i + 1;
    }
    if current != "" {
      segments := segments + [current];
    }
  }

  /** A chunk respects the width, or is one token that alone exceeds it. */
  predicate FitsOrSingle(chunk: string, maxLength: int) {
    |chunk| <= maxLength || |Words(chunk)| == 1
  }

  /** Tokens added to a non-empty chunk follow its own tokens. */
  lemma {:induction false} ExtendChunk(current: string, w: string)
    requires IsWord(w)
    ensures Words(current + (if current != [] then " " else "") + w) == Words(current) + [w]
  {
    WordsOfWord(w);
    if current != [] {
      WordsAroundSpace(current, ' ', w);
    } else {
      assert current + "" + w == w;
    }
  }

  lemma {:induction false} WordsOfAllCons(x: string, rest: seq<string>)
    ensures WordsOfAll([x] + rest) == Words(x) + WordsOfAll(rest)
  {
    assert ([x] + rest)[0] == x;
    assert ([x] + rest)[1..] == rest;
  }

  /** The chunks carry the tokens of `current` and then `words`, in order. */
  lemma {:induction false} LengthChunksFromWords(words: seq<string>, maxLength: int, current: string)
    requires IsWordList(words)
    ensures WordsOfAll(LengthChunksFrom(words, maxLength, current)) == Words(current) + words
    decreases |words|
  {
    if words == [] {
      if current != [] {
        WordsOfAllCons(current, []);
      }
    } else {
      var w, rest := words[0], words[1..];
      assert words == [w] + rest;
      var test := current + (if current != [] then " " else "") + w;
      ExtendChunk(current, w);
      if |test| <= maxLength {
        LengthChunksFromWords(rest, maxLength, test);
        assert Words(current) + [w] + rest == Words(current) + words;
      } else if current != [] {
        LengthChunksFromWords(rest, maxLength, w);
        WordsOfAllCons(current, LengthChunksFrom(rest, maxLength, w));
        WordsOfWord(w);
      } else {
        LengthChunksFromWords(rest, maxLength, "");
        WordsOfAllCons(w, LengthChunksFrom(rest, maxLength, ""));
        WordsOfWord(w);
        assert Words(current) == [];
      }
    }
  }

  /** Every chunk has a token, and fits in `maxLength` or is a single token. */
  lemma {:induction false} LengthChunksFromFit(words: seq<string>, maxLength: int, current: string)
    requires IsWordList(words)
    requires current == [] || (Words(current) != [] && FitsOrSingle(current, maxLength))
    ensures forall c :: c in LengthChunksFrom(words, maxLength, current) ==> Words(c) != [] && FitsOrSingle(c, maxLength)
    decreases |words|
  {
    if words != [] {
      var w := words[0];
      WordsOfWord(w);
      var test := current + (if current != [] then " " else "") + w;
      ExtendChunk(current, w);
      if |test| <= maxLength {
        LengthChunksFromFit(words[1..], maxLength, test);
      } else if current != [] {
        LengthChunksFromFit(words[1..], maxLength, w);
      } else {
        LengthChunksFromFit(words[1..], maxLength, "");
      }
    }
  }

  /**
    `split_text_by_length` keeps the tokens of the text in order, yields only non-empty chunks that
    fit or hold one token, and yields nothing exactly when the text has no tokens.
  */
  lemma {:induction false} LengthChunksShape(text: string, maxLength: int)
    ensures WordsOfAll(LengthChunks(text, maxLength)) == Words(text)
    ensures forall c :: c in LengthChunks(text, maxLength) ==> Words(c) != [] && FitsOrSingle(c, maxLength)
    ensures LengthChunks(text, maxLength) == [] <==> Words(text) == []
  {
    LengthChunksFromWords(Words(text), maxLength, "");
    LengthChunksFromFit(Words(text), maxLength, "");
    assert Words("") == [];
    var chunks := LengthChunks(text, maxLength);
    if chunks != [] {
      assert chunks[0] in chunks;
      assert WordsOfAll(chunks) == Words(chunks[0]) + WordsOfAll(chunks[1..]);
    }
  }
}
