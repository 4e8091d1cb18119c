/** Text preparation: white-space normalisation, sentence and word splitting,
    a crude language guess, word context windows and key phrases. */
module TextProcessor {
  import opened Strings
  import opened Regex

  datatype SourceType = ChatMessage | Document | Email | Article | Unknown

  datatype TextMetadata = TextMetadata(
    wordCount: nat,
    sentenceCount: nat,
    characterCount: nat,
    language: string,
    sourceType: SourceType)

  datatype ProcessedText = ProcessedText(
    originalText: string,
    sentences: seq<string>,
    words: seq<string>,
    cleanedText: string,
    metadata: TextMetadata)

  // ---------------------------------------------------------------------------
  // clean_text

  /** Characters the cleanup pattern `[^\w\s.,!?;:\-\(\)\[\]]` leaves alone. */
  predicate IsKept(c: char) {
    IsWordChar(c) || IsWhitespace(c) || c in ".,!?;:-()[]"
  }

  predicate IsVisibleKept(c: char) {
    IsKept(c) && !IsWhitespace(c)
  }

  /** The cleanup pattern replaced by a space wherever it matches. */
  function Sanitize(s: string): (t: string)
    ensures |t| == |s|
    ensures forall i :: 0 <= i < |t| ==> IsKept(t[i])
    decreases |s|
  {
    if s == [] then [] else [if IsKept(s[0]) then s[0] else ' '] + Sanitize(s[1..])
  }

  /** `\s+` replaced by a single space. */
  function Collapse(s: string): (t: string)
    ensures forall i :: 0 <= i < |t| ==> (IsWhitespace(t[i]) ==> t[i] == ' ')
    ensures forall i :: 0 <= i < |t| - 1 ==> !(IsWhitespace(t[i]) && IsWhitespace(t[i + 1]))
    ensures s != [] ==> t != [] && (IsWhitespace(t[0]) <==> IsWhitespace(s[0]))
    ensures (forall i :: 0 <= i < |s| ==> IsKept(s[i])) ==> forall i :: 0 <= i < |t| ==> IsKept(t[i])
    decreases |s|
  {
    if s == [] then []
    else if IsWhitespace(s[0]) then [' '] + Collapse(s[RunLength(s, IsWhitespace)..])
    else [s[0]] + Collapse(s[1..])
  }

  /** `clean_text`: trim, tabs to spaces, carriage returns dropped, characters
      outside the kept set turned into spaces, white-space runs collapsed. */
  function CleanText(text: string): (t: string)
    ensures '\t' !in t && '\r' !in t
    ensures forall i :: 0 <= i < |t| ==> IsKept(t[i]) && (IsWhitespace(t[i]) ==> t[i] == ' ')
    ensures forall i :: 0 <= i < |t| - 1 ==> !(IsWhitespace(t[i]) && IsWhitespace(t[i + 1]))
  {
    var noTabs := ReplaceChar(Trim(text), '\t', " ");
    var noCr := ReplaceChar(noTabs, '\r', "");
    var t := Collapse(Sanitize(noCr));
    assert forall i :: 0 <= i < |t| ==> t[i] != '\t' && t[i] != '\r';
    t
  }

  lemma {:induction false} FilterCollapse(s: string)
    ensures Filter(Collapse(s), NotWhitespace) == Filter(s, NotWhitespace)
    decreases |s|
  {
    if s != [] {
      if IsWhitespace(s[0]) {
        var n := RunLength(s, IsWhitespace);
        FilterCollapse(s[n..]);
        assert s == s[..n] + s[n..];
        FilterAppend(s[..n], s[n..], NotWhitespace);
        FilterNone(s[..n], NotWhitespace);
        FilterAppend([' '], Collapse(s[n..]), NotWhitespace);
      } else {
        FilterCollapse(s[1..]);
        FilterAppend([s[0]], Collapse(s[1..]), NotWhitespace);
      }
    }
  }

  lemma {:induction false} FilterSanitize(s: string)
    ensures Filter(Sanitize(s), NotWhitespace) == Filter(s, IsVisibleKept)
    decreases |s|
  {
    if s != [] {
      FilterSanitize(s[1..]);
      FilterAppend([if IsKept(s[0]) then s[0] else ' '], Sanitize(s[1..]), NotWhitespace);
    }
  }

  lemma {:induction false} FilterReplaceWhitespace(s: string, c: char, r: string)
    requires IsWhitespace(c)
    requires forall i :: 0 <= i < |r| ==> IsWhitespace(r[i])
    ensures Filter(ReplaceChar(s, c, r), IsVisibleKept) == Filter(s, IsVisibleKept)
    decreases |s|
  {
    if s != [] {
      FilterReplaceWhitespace(s[1..], c, r);
      var head := if s[0] == c then r else [s[0]];
      FilterAppend(head, ReplaceChar(s[1..], c, r), IsVisibleKept);
      if s[0] == c {
        FilterNone(r, IsVisibleKept);
      }
    }
  }

  /** Cleaning keeps every visible character that the cleanup pattern allows,
      in order, and nothing else: what differs is white space only. */
  lemma CleanTextKeepsVisible(text: string)
    ensures Filter(CleanText(text), NotWhitespace) == Filter(text, IsVisibleKept)
  {
    var noTabs := ReplaceChar(Trim(text), '\t', " ");
    var noCr := ReplaceChar(noTabs, '\r', "");
    FilterCollapse(Sanitize(noCr));
    FilterSanitize(noCr);
    FilterReplaceWhitespace(noTabs, '\r', "");
    FilterReplaceWhitespace(Trim(text), '\t', " ");
    FilterTrim(text, IsVisibleKept);
  }

  // ---------------------------------------------------------------------------
  // extract_sentences

  predicate IsTerminator(c: char) { c == '.' || c == '!' || c == '?' }

  predicate NoTerminator(s: string) {
    forall i :: 0 <= i < |s| ==> !IsTerminator(s[i])
  }

  predicate IsVisible(c: char) { !IsWhitespace(c) && !IsTerminator(c) }

  /** Length of the separator `[.!?]+\s*` at the start of `s`: the run of
      terminators and the white space after it. */
  function SeparatorLength(s: string): (n: nat)
    requires s != [] && IsTerminator(s[0])
    ensures 1 <= n <= |s|
    ensures forall i :: 0 <= i < n ==> !IsVisible(s[i])
  {
    var t := RunLength(s, IsTerminator);
    var w := RunLength(s[t..], IsWhitespace);
    assert forall i :: t <= i < t + w ==> s[i] == s[t..][i - t];
    t + w
  }

  /** The pieces `[.!?]+\s*` cuts `s` into (`Regex::split`), empty ones
      included: the leftmost run of terminators together with the white space
      after it is one separator. */
  function SentencePieces(s: string): (pieces: seq<string>)
    ensures |pieces| >= 1
    ensures forall k :: 0 <= k < |pieces| ==> NoTerminator(pieces[k])
    decreases |s|
  {
    var first := FirstIndex(s, IsTerminator);
    if first.None? then [s]
    else
      var k := first.value;
      [s[..k]] + SentencePieces(s[k + SeparatorLength(s[k..])..])
  }

  predicate IsSentence(s: string) {
    s != [] && Trimmed(s) && NoTerminator(s)
  }

  /** Each piece trimmed, the empty ones dropped. */
  function TrimmedNonEmpty(pieces: seq<string>): (r: seq<string>)
    requires forall k :: 0 <= k < |pieces| ==> NoTerminator(pieces[k])
    ensures forall k :: 0 <= k < |r| ==> IsSentence(r[k])
    ensures |r| <= |pieces|
  {
    if pieces == [] then []
    else
      var t := Trim(pieces[0]);
      var rest := TrimmedNonEmpty(pieces[1..]);
      TrimKeepsNoTerminator(pieces[0]);
      if t == [] then rest else [t] + rest
  }

  lemma TrimKeepsNoTerminator(s: string)
    requires NoTerminator(s)
    ensures NoTerminator(Trim(s))
  {
    var t := Trim(s);
    TrimCutsWhitespace(s);
    assert forall i :: 0 <= i < |t| ==> t[i] == s[ContentStart(s) + i];
  }

  /** `extract_sentences`. */
  function ExtractSentences(text: string): (sentences: seq<string>)
    ensures forall k :: 0 <= k < |sentences| ==> IsSentence(sentences[k])
  {
    TrimmedNonEmpty(SentencePieces(text))
  }

  lemma ConcatCons(x: string, rest: seq<string>)
    ensures Concat([x] + rest) == x + Concat(rest)
  {
    assert ([x] + rest)[1..] == rest;
  }

  lemma {:induction false} FilterTrimmedNonEmpty(pieces: seq<string>)
    requires forall k :: 0 <= k < |pieces| ==> NoTerminator(pieces[k])
    ensures Filter(Concat(TrimmedNonEmpty(pieces)), IsVisible) == Filter(Concat(pieces), IsVisible)
    decreases |pieces|
  {
    if pieces != [] {
      var t := Trim(pieces[0]);
      FilterTrimmedNonEmpty(pieces[1..]);
      FilterTrim(pieces[0], IsVisible);
      FilterAppend(pieces[0], Concat(pieces[1..]), IsVisible);
      if t != [] {
        ConcatCons(t, TrimmedNonEmpty(pieces[1..]));
        FilterAppend(t, Concat(TrimmedNonEmpty(pieces[1..])), IsVisible);
      } else {
        assert ([] + TrimmedNonEmpty(pieces[1..])) == TrimmedNonEmpty(pieces[1..]);
      }
    }
  }

  /** The first piece ends at the first terminator. */
  lemma {:induction false} SentencePiecesCut(s: string)
    requires FirstIndex(s, IsTerminator).Some?
    ensures SentencePieces(s) == [s[..FirstIndex(s, IsTerminator).value]] +
      SentencePieces(s[FirstIndex(s, IsTerminator).value + SeparatorLength(s[FirstIndex(s, IsTerminator).value..])..])
  {
  }

  lemma ConcatSentencePieces(s: string)
    requires FirstIndex(s, IsTerminator).Some?
    ensures var k := FirstIndex(s, IsTerminator).value;
      Concat(SentencePieces(s)) == s[..k] + Concat(SentencePieces(s[k + SeparatorLength(s[k..])..]))
  {
    var k := FirstIndex(s, IsTerminator).value;
    SentencePiecesCut(s);
    ConcatCons(s[..k], SentencePieces(s[k + SeparatorLength(s[k..])..]));
  }

  /** The separator after the first sentence holds no visible character. */
  lemma FilterSeparator(s: string, k: nat)
    requires FirstIndex(s, IsTerminator) == Some(k)
    ensures Filter(s, IsVisible) == Filter(s[..k], IsVisible) + Filter(s[k + SeparatorLength(s[k..])..], IsVisible)
  {
    var n := SeparatorLength(s[k..]);
    assert forall i :: 0 <= i < n ==> !IsVisible(s[k..][i]);
    FilterCut(s, k, k + n, IsVisible);
  }

  lemma {:induction false} FilterSentencePieces(s: string)
    ensures Filter(Concat(SentencePieces(s)), IsVisible) == Filter(s, IsVisible)
    decreases |s|
  {
    var first := FirstIndex(s, IsTerminator);
    if first.None? {
      ConcatCons(s, []);
      assert s + [] == s;
    } else {
      var k := first.value;
      var n := SeparatorLength(s[k..]);
      var rest := s[k + n..];
      var tail := Concat(SentencePieces(rest));
      assert Concat(SentencePieces(s)) == s[..k] + tail by {
        ConcatSentencePieces(s);
      }
      assert Filter(s[..k] + tail, IsVisible) == Filter(s[..k], IsVisible) + Filter(rest, IsVisible) by {
        FilterAppend(s[..k], tail, IsVisible);
        FilterSentencePieces(rest);
      }
      assert Filter(s, IsVisible) == Filter(s[..k], IsVisible) + Filter(rest, IsVisible) by {
        FilterSeparator(s, k);
      }
    }
  }

  /** Splitting into sentences loses only terminators and white space: the
      remaining characters of the sentences are those of the text, in order. */
  lemma SentencesKeepText(text: string)
    ensures Filter(Concat(ExtractSentences(text)), IsVisible) == Filter(text, IsVisible)
  {
    FilterTrimmedNonEmpty(SentencePieces(text));
    FilterSentencePieces(text);
  }

  // ---------------------------------------------------------------------------
  // extract_words

  predicate IsLowerWordChar(c: char) { IsWordChar(c) && !IsUpper(c) }

  predicate IsToken(w: string) {
    w != [] && forall i :: 0 <= i < |w| ==> IsLowerWordChar(w[i])
  }

  /** `extract_words`: every maximal run of word characters (`\b\w+\b`),
      lowercased. */
  function ExtractWords(text: string): (words: seq<string>)
    ensures forall k :: 0 <= k < |words| ==> IsToken(words[k])
    decreases |text|
  {
    if text == [] then []
    else if !IsWordChar(text[0]) then ExtractWords(text[1..])
    else
      var n := RunLength(text, IsWordChar);
      [Lower(text[..n])] + ExtractWords(text[n..])
  }

  /** The words, glued together, are the lowercased word characters of the
      text: no word character is lost and none is invented. */
  lemma {:induction false} ExtractWordsKeepsText(text: string)
    ensures Concat(ExtractWords(text)) == Lower(Filter(text, IsWordChar))
    decreases |text|
  {
    if text == [] {
    } else if !IsWordChar(text[0]) {
      ExtractWordsKeepsText(text[1..]);
    } else {
      var n := RunLength(text, IsWordChar);
      assert Filter(text, IsWordChar) == text[..n] + Filter(text[n..], IsWordChar) by {
        FilterSplit(text, n, IsWordChar);
        FilterAll(text[..n], IsWordChar);
      }
      assert Concat(ExtractWords(text)) == Lower(text[..n]) + Concat(ExtractWords(text[n..])) by {
        ConcatCons(Lower(text[..n]), ExtractWords(text[n..]));
      }
      ExtractWordsKeepsText(text[n..]);
      LowerAppend(text[..n], Filter(text[n..], IsWordChar));
    }
  }

  // ---------------------------------------------------------------------------
  // detect_language

  const CommonEnglishWords: seq<string> :=
    ["the", "and", "or", "but", "in", "on", "at", "to", "for", "of", "with", "by"]

  function CountCommon(words: seq<string>): (n: nat)
    ensures n <= |words|
  {
    if words == [] then 0
    else (if Lower(words[0]) in CommonEnglishWords then 1 else 0) + CountCommon(words[1..])
  }

  /** `detect_language`: "english" when more than a tenth of the white-space
      separated words are common English words. */
  function DetectLanguage(text: string): (lang: string)
    ensures lang == "english" || lang == "unknown"
  {
    var words := SplitWhitespace(text);
    if |words| == 0 then "unknown"
    else if (CountCommon(words) as real) / (|words| as real) > 0.1 then "english"
    else "unknown"
  }

  lemma DetectLanguageRatio(text: string)
    ensures |SplitWhitespace(text)| == 0 ==> DetectLanguage(text) == "unknown"
    ensures DetectLanguage(text) == "english" <==> 10 * CountCommon(SplitWhitespace(text)) > |SplitWhitespace(text)|
  {
    var words := SplitWhitespace(text);
    if |words| > 0 {
      RatioAboveTenth(CountCommon(words) as real, |words| as real);
    }
  }

  lemma RatioAboveTenth(c: real, n: real)
    requires n > 0.0
    ensures c / n > 0.1 <==> 10.0 * c > n
  {
    var q := c / n;
    assert q * n == c;
    if q > 0.1 {
      assert (q - 0.1) * n > 0.0;
    } else {
      assert (0.1 - q) * n >= 0.0;
    }
  }

  // ---------------------------------------------------------------------------
  // process_text

  /** `process_text`: the cleaned text, its sentences and words, and metadata
      counting them. */
  function ProcessText(text: string, sourceType: SourceType): (r: ProcessedText)
    ensures r.originalText == text
    ensures r.metadata.wordCount == |r.words| && r.metadata.sentenceCount == |r.sentences|
    ensures r.metadata.characterCount == |text|
    ensures forall k :: 0 <= k < |r.sentences| ==> IsSentence(r.sentences[k])
    ensures forall k :: 0 <= k < |r.words| ==> IsToken(r.words[k])
    ensures r.metadata.language == "english" || r.metadata.language == "unknown"
    ensures r.metadata.sourceType == sourceType
  {
    var cleaned := CleanText(text);
    var sentences := ExtractSentences(cleaned);
    var words := ExtractWords(cleaned);
    ProcessedText(text, sentences, words, cleaned,
      TextMetadata(|words|, |sentences|, |text|, DetectLanguage(cleaned), sourceType))
  }

  // ---------------------------------------------------------------------------
  // extract_context_windows

  function WindowStart(i: nat, windowSize: nat): nat {
    if i >= windowSize / 2 then i - windowSize / 2 else 0
  }

  function WindowEnd(i: nat, windowSize: nat, n: nat): nat {
    if i + windowSize / 2 + 1 < n then i + windowSize / 2 + 1 else n
  }

  /** The words of window `i`. */
  function WindowWords(words: seq<string>, i: nat, windowSize: nat): seq<string>
    requires i < |words|
  {
    words[WindowStart(i, windowSize)..WindowEnd(i, windowSize, |words|)]
  }

  /** `extract_context_windows`: one window per white-space separated word,
      the words around it joined by single spaces. */
  method ExtractContextWindows(text: string, windowSize: nat) returns (windows: seq<string>)
    ensures |windows| == |SplitWhitespace(text)|
    ensures forall i :: 0 <= i < |windows| ==>
      windows[i] == Join(WindowWords(SplitWhitespace(text), i, windowSize), " ")
  {
    var words := SplitWhitespace(text);
    windows := [];
    for i := 0 to |words|
      invariant |windows| == i
      invariant forall k :: 0 <= k < i ==> windows[k] == Join(WindowWords(words, k, windowSize), " ")
    {
      var start := if i >= windowSize / 2 then i - windowSize / 2 else 0;
      var end := if i + windowSize / 2 + 1 < |words| then i + windowSize / 2 + 1 else |words|;
      windows := windows + [Join(words[start..end], " ")];
    }
  }

  /** Window `i` holds word `i` and at most `2 * (windowSize / 2) + 1` words,
      and splitting the window text again gives exactly those words back, with
      word `i` at offset `i - WindowStart`. */
  lemma WindowHoldsWord(words: seq<string>, i: nat, windowSize: nat)
    requires i < |words|
    requires forall k :: 0 <= k < |words| ==> IsWord(words[k])
    ensures WindowStart(i, windowSize) <= i < WindowEnd(i, windowSize, |words|)
    ensures |WindowWords(words, i, windowSize)| <= 2 * (windowSize / 2) + 1
    ensures SplitWhitespace(Join(WindowWords(words, i, windowSize), " ")) == WindowWords(words, i, windowSize)
    ensures WindowWords(words, i, windowSize)[i - WindowStart(i, windowSize)] == words[i]
  {
    SplitJoinRoundTrip(WindowWords(words, i, windowSize));
  }

  // ---------------------------------------------------------------------------
  // extract_key_phrases

  predicate NonIncreasingLength(s: seq<string>) {
    forall i, j :: 0 <= i < j < |s| ==> |s[i]| >= |s[j]|
  }

  /** The elements of `s` of length `n`, in order. */
  function OfLength(s: seq<string>, n: nat): seq<string> {
    if s == [] then [] else (if |s[0]| == n then [s[0]] else []) + OfLength(s[1..], n)
  }

  /** `x` placed before the first element no longer than itself. */
  function InsertByLength(x: string, s: seq<string>): (r: seq<string>)
    ensures multiset(r) == multiset(s) + multiset{x}
  {
    if s == [] || |x| >= |s[0]| then [x] + s
    else
      assert s == [s[0]] + s[1..];
      [s[0]] + InsertByLength(x, s[1..])
  }

  lemma {:induction false} InsertByLengthSorted(x: string, s: seq<string>)
    requires NonIncreasingLength(s)
    ensures NonIncreasingLength(InsertByLength(x, s))
    decreases |s|
  {
    if s != [] && |x| < |s[0]| {
      var rest := InsertByLength(x, s[1..]);
      InsertByLengthSorted(x, s[1..]);
      InsertByLengthBounded(x, s[1..], |s[0]|);
      assert InsertByLength(x, s) == [s[0]] + rest;
    }
  }

  /** Inserting keeps every length within a bound that `x` and `s` keep. */
  lemma {:induction false} InsertByLengthBounded(x: string, s: seq<string>, m: nat)
    requires |x| <= m && forall k :: 0 <= k < |s| ==> |s[k]| <= m
    ensures forall k :: 0 <= k < |InsertByLength(x, s)| ==> |InsertByLength(x, s)[k]| <= m
    decreases |s|
  {
    if s != [] && |x| < |s[0]| {
      InsertByLengthBounded(x, s[1..], m);
    }
  }

  /** `sort_by(|a, b| b.len().cmp(&a.len()))`: a stable sort, longest first. */
  function SortByLengthDesc(s: seq<string>): (r: seq<string>)
    ensures multiset(r) == multiset(s)
    ensures NonIncreasingLength(r)
  {
    if s == [] then []
    else
      var sorted := SortByLengthDesc(s[1..]);
      InsertByLengthSorted(s[0], sorted);
      assert s == [s[0]] + s[1..];
      InsertByLength(s[0], sorted)
  }

  lemma {:induction false} InsertByLengthStable(x: string, s: seq<string>, n: nat)
    ensures OfLength(InsertByLength(x, s), n) == (if |x| == n then [x] else []) + OfLength(s, n)
    decreases |s|
  {
    if s == [] || |x| >= |s[0]| {
      assert ([x] + s)[1..] == s;
    } else {
      InsertByLengthStable(x, s[1..], n);
      assert ([s[0]] + InsertByLength(x, s[1..]))[1..] == InsertByLength(x, s[1..]);
    }
  }

  /** The sort is stable: phrases of equal length keep their relative order.
      With the two ensures of `SortByLengthDesc` this pins the result down. */
  lemma {:induction false} SortByLengthDescStable(s: seq<string>, n: nat)
    ensures OfLength(SortByLengthDesc(s), n) == OfLength(s, n)
    decreases |s|
  {
    if s != [] {
      SortByLengthDescStable(s[1..], n);
      InsertByLengthStable(s[0], SortByLengthDesc(s[1..]), n);
    }
  }

  /** `Vec::dedup`: each run of consecutive equal elements kept once. */
  function Dedup(s: seq<string>): (r: seq<string>)
    ensures forall i :: 0 <= i < |r| - 1 ==> r[i] != r[i + 1]
    ensures forall x :: x in r <==> x in s
    ensures s != [] ==> r != [] && r[0] == s[0]
    ensures NonIncreasingLength(s) ==> NonIncreasingLength(r)
  {
    if |s| <= 1 then s
    else if s[0] == s[1] then Dedup(s[1..])
    else [s[0]] + Dedup(s[1..])
  }

  /** `Vec::dedup` looks only at neighbours: a sequence without adjacent
      repeats is left as it is, and only such a sequence is. */
  lemma {:induction false} DedupIdentity(s: seq<string>)
    ensures Dedup(s) == s <==> forall i :: 0 <= i < |s| - 1 ==> s[i] != s[i + 1]
  {
    if |s| > 1 && forall i :: 0 <= i < |s| - 1 ==> s[i] != s[i + 1] {
      var tail := s[1..];
      assert forall i :: 0 <= i < |tail| - 1 ==> tail[i] != tail[i + 1] by {
        forall i | 0 <= i < |tail| - 1
          ensures tail[i] != tail[i + 1]
        {
          assert tail[i] == s[i + 1] && tail[i + 1] == s[i + 2];
        }
      }
      DedupIdentity(tail);
      assert s == [s[0]] + tail && s[0] != tail[0];
      DedupCons(s[0], tail);
    }
  }

  /** Runs do not reach across a boundary between unequal neighbours, so
      `Dedup` works on each side apart: an element equal to one further
      away survives. */
  lemma {:induction false} DedupSplit(s: seq<string>, t: seq<string>)
    requires s != [] && t != [] && s[|s| - 1] != t[0]
    ensures Dedup(s + t) == Dedup(s) + Dedup(t)
    decreases |s|
  {
    if |s| == 1 {
      assert s + t == [s[0]] + t;
      DedupCons(s[0], t);
    } else {
      var x, y := Dedup(s[1..]), Dedup(t);
      assert s + t == [s[0]] + (s[1..] + t);
      assert s == [s[0]] + s[1..];
      DedupCons(s[0], s[1..] + t);
      DedupCons(s[0], s[1..]);
      DedupSplit(s[1..], t);
      ConsRegroup(s[0], x, y);
    }
  }

  lemma ConsRegroup(a: string, x: seq<string>, y: seq<string>)
    ensures [a] + (x + y) == ([a] + x) + y
  {
  }

  lemma DedupCons(a: string, s: seq<string>)
    requires s != []
    ensures Dedup([a] + s) == if a == s[0] then Dedup(s) else [a] + Dedup(s)
  {
    var u := [a] + s;
    assert u[0] == a && u[1] == s[0] && u[1..] == s;
  }

  /** The trimmed text of each match. */
  function Phrases(found: seq<Match>): (r: seq<string>)
    ensures |r| == |found|
  {
    seq(|found|, k requires 0 <= k < |found| => Trim(found[k].text))
  }

  /** The two push loops of `extract_key_phrases`: noun-phrase matches, then
      important-term matches, each trimmed. */
  method CollectKeyPhrases(text: string, nounPhrase: Pattern, importantTerm: Pattern)
    returns (phrases: seq<string>)
    ensures phrases == AllPhrases(text, nounPhrase, importantTerm)
  {
    phrases := [];
    var nouns := nounPhrase.findIter(text);
    for k := 0 to |nouns|
      invariant phrases == Phrases(nouns[..k])
    {
      phrases := phrases + [Trim(nouns[k].text)];
    }
    assert nouns[..|nouns|] == nouns;
    var terms := importantTerm.findIter(text);
    var n := |phrases|;
    for k := 0 to |terms|
      invariant phrases == Phrases(nouns) + Phrases(terms[..k])
    {
      phrases := phrases + [Trim(terms[k].text)];
    }
    assert terms[..|terms|] == terms;
  }

  /** Every phrase either pattern finds, noun phrases first. */
  function AllPhrases(text: string, nounPhrase: Pattern, importantTerm: Pattern): seq<string>
  {
    Phrases(nounPhrase.findIter(text)) + Phrases(importantTerm.findIter(text))
  }

  /** `extract_key_phrases` as written: the collected phrases sorted longest
      first, then consecutive duplicates dropped. */
  method ExtractKeyPhrases(text: string, nounPhrase: Pattern, importantTerm: Pattern)
    returns (phrases: seq<string>)
    ensures NonIncreasingLength(phrases)
    ensures forall i :: 0 <= i < |phrases| - 1 ==> phrases[i] != phrases[i + 1]
    ensures forall x :: x in phrases <==> x in AllPhrases(text, nounPhrase, importantTerm)
    ensures phrases == Dedup(SortByLengthDesc(AllPhrases(text, nounPhrase, importantTerm)))
  {
    var collected := CollectKeyPhrases(text, nounPhrase, importantTerm);
    phrases := SortByLengthDesc(collected);
    assert forall x :: x in phrases <==> x in collected by {
      assert forall x :: x in phrases <==> x in multiset(phrases);
      assert forall x :: x in collected <==> x in multiset(collected);
    }
    phrases := Dedup(phrases);
  }

  /** Equal lengths keep their order: "Alice", "Bobby", "Alice" is already
      sorted. */
  lemma SortKeepsEqualLengths(a: string, b: string)
    requires |a| == |b|
    ensures SortByLengthDesc([a, b, a]) == [a, b, a]
  {
    assert SortByLengthDesc([a]) == [a] by {
      assert [a][1..] == [];
    }
    assert SortByLengthDesc([b, a]) == [b, a] by {
      assert [b, a][1..] == [a];
      assert InsertByLength(b, [a]) == [b, a];
    }
    assert [a, b, a][1..] == [b, a];
    assert InsertByLength(a, [b, a]) == [a, b, a];
  }

  lemma DedupKeepsSeparated(a: string, b: string)
    requires a != b
    ensures Dedup([a, b, a]) == [a, b, a]
  {
    assert Dedup([b, a]) == [b, a] by {
      assert [b, a][1..] == [a];
    }
    assert [a, b, a][1..] == [b, a];
  }

  /** Dropping only consecutive duplicates after a sort by length leaves
      equal phrases that are separated by another phrase of the same length:
      three noun phrases "Alice", "Bobby", "Alice" come out unchanged. */
  lemma KeyPhraseDuplicatesSurvive()
    ensures Dedup(SortByLengthDesc(["Alice", "Bobby", "Alice"])) == ["Alice", "Bobby", "Alice"]
  {
    var a: string, b: string := "Alice", "Bobby";
    SortKeepsEqualLengths(a, b);
    assert a != b by { assert a[0] != b[0]; }
    DedupKeepsSeparated(a, b);
  }

  /** Every duplicate dropped, first occurrences kept in order. */
  function DedupAll(s: seq<string>): (r: seq<string>)
    ensures forall i, j :: 0 <= i < j < |r| ==> r[i] != r[j]
    ensures forall x :: x in r <==> x in s
  {
    if s == [] then []
    else
      var p := DedupAll(s[..|s| - 1]);
      var x := s[|s| - 1];
      assert s == s[..|s| - 1] + [x];
      if x in p then p else p + [x]
  }

  lemma {:induction false} DedupAllSorted(s: seq<string>)
    requires NonIncreasingLength(s)
    ensures NonIncreasingLength(DedupAll(s))
    decreases |s|
  {
    if s != [] {
      var p := DedupAll(s[..|s| - 1]);
      var x := s[|s| - 1];
      DedupAllSorted(s[..|s| - 1]);
      forall k | 0 <= k < |p|
        ensures |p[k]| >= |x|
      {
        assert p[k] in s[..|s| - 1];
        var j :| 0 <= j < |s| - 1 && s[..|s| - 1][j] == p[k];
        assert s[j] == p[k];
      }
    }
  }

  /** `extract_key_phrases` as its comment intends: sorted longest first with
      every duplicate removed. */
  method ExtractDistinctKeyPhrases(text: string, nounPhrase: Pattern, importantTerm: Pattern)
    returns (phrases: seq<string>)
    ensures NonIncreasingLength(phrases)
    ensures forall i, j :: 0 <= i < j < |phrases| ==> phrases[i] != phrases[j]
    ensures forall x :: x in phrases <==> x in AllPhrases(text, nounPhrase, importantTerm)
    ensures phrases == DedupAll(SortByLengthDesc(AllPhrases(text, nounPhrase, importantTerm)))
  {
    var collected := CollectKeyPhrases(text, nounPhrase, importantTerm);
    phrases := SortByLengthDesc(collected);
    assert forall x :: x in phrases <==> x in collected by {
      assert forall x :: x in phrases <==> x in multiset(phrases);
      assert forall x :: x in collected <==> x in multiset(collected);
    }
    DedupAllSorted(phrases);
    phrases := DedupAll(phrases);
  }
}
