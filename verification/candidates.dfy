/** The matches the pattern-based extractors walk through, in the order they
    walk them (sentence by sentence, pattern by pattern, match by match), and
    the selection their seen-sets make: the first occurrence of every trimmed
    match text that is long enough. */
module Candidates {
  import opened Strings
  import opened Regex

  /** One regex match in one sentence. */
  datatype Candidate = Candidate(sentenceIndex: nat, sentence: string, found: Match)

  /** The match is a piece of its sentence. */
  predicate WellFormed(c: Candidate) {
    FoundIn(c.found, c.sentence)
  }

  predicate AllWellFormed(cs: seq<Candidate>) {
    forall k :: 0 <= k < |cs| ==> WellFormed(cs[k])
  }

  /** `mat.as_str().trim()`. */
  function Text(c: Candidate): string {
    Trim(c.found.text)
  }

  function Texts(cs: seq<Candidate>): (ts: seq<string>)
    ensures |ts| == |cs|
  {
    seq(|cs|, k requires 0 <= k < |cs| => Text(cs[k]))
  }

  function MatchCandidates(index: nat, sentence: string, found: seq<Match>): (cs: seq<Candidate>)
    ensures |cs| == |found|
    ensures forall k :: 0 <= k < |cs| ==> cs[k] == Candidate(index, sentence, found[k])
  {
    seq(|found|, k requires 0 <= k < |found| => Candidate(index, sentence, found[k]))
  }

  /** Every candidate's sentence is the one its index names. */
  predicate InSentences(cs: seq<Candidate>, sentences: seq<string>) {
    forall k :: 0 <= k < |cs| ==>
      cs[k].sentenceIndex < |sentences| && cs[k].sentence == sentences[cs[k].sentenceIndex]
  }

  predicate InSentence(cs: seq<Candidate>, index: nat, sentence: string) {
    forall k :: 0 <= k < |cs| ==> cs[k].sentenceIndex == index && cs[k].sentence == sentence
  }

  /** The matches of every pattern in one sentence, pattern by pattern. */
  function PatternCandidates(patterns: seq<Pattern>, index: nat, sentence: string): seq<Candidate>
    decreases |patterns|
  {
    if patterns == [] then []
    else
      var n := |patterns| - 1;
      PatternCandidates(patterns[..n], index, sentence)
        + MatchCandidates(index, sentence, patterns[n].findIter(sentence))
  }

  /** The matches of every pattern in every sentence. */
  function AllCandidates(patterns: seq<Pattern>, sentences: seq<string>): seq<Candidate>
    decreases |sentences|
  {
    if sentences == [] then []
    else
      var n := |sentences| - 1;
      AllCandidates(patterns, sentences[..n]) + PatternCandidates(patterns, n, sentences[n])
  }

  /** The matches of one sentence carry its index and text and, the regex
      library being sound, are pieces of it. */
  lemma {:induction false} PatternCandidatesLocated(patterns: seq<Pattern>, index: nat, sentence: string)
    ensures InSentence(PatternCandidates(patterns, index, sentence), index, sentence)
    ensures AllValid(patterns) ==> AllWellFormed(PatternCandidates(patterns, index, sentence))
    decreases |patterns|
  {
    if patterns != [] {
      var n := |patterns| - 1;
      PatternCandidatesLocated(patterns[..n], index, sentence);
      var prev := PatternCandidates(patterns[..n], index, sentence);
      var ms := MatchCandidates(index, sentence, patterns[n].findIter(sentence));
      var cs := PatternCandidates(patterns, index, sentence);
      assert cs == prev + ms;
      if AllValid(patterns) {
        assert AllValid(patterns[..n]) by {
          forall k | 0 <= k < n ensures Valid(patterns[..n][k]) {
            assert patterns[..n][k] == patterns[k];
          }
        }
        assert Valid(patterns[n]);
      }
    }
  }

  /** Every match of the walk carries the index and text of its sentence
      and, the regex library being sound, is a piece of that sentence. */
  lemma {:induction false} AllCandidatesLocated(patterns: seq<Pattern>, sentences: seq<string>)
    ensures InSentences(AllCandidates(patterns, sentences), sentences)
    ensures AllValid(patterns) ==> AllWellFormed(AllCandidates(patterns, sentences))
    decreases |sentences|
  {
    if sentences != [] {
      var n := |sentences| - 1;
      AllCandidatesLocated(patterns, sentences[..n]);
      PatternCandidatesLocated(patterns, n, sentences[n]);
      var prev := AllCandidates(patterns, sentences[..n]);
      var cs := AllCandidates(patterns, sentences);
      assert cs == prev + PatternCandidates(patterns, n, sentences[n]);
      forall k | 0 <= k < |prev|
        ensures prev[k].sentenceIndex < n && prev[k].sentence == sentences[prev[k].sentenceIndex]
      {
        assert sentences[..n][prev[k].sentenceIndex] == sentences[prev[k].sentenceIndex];
      }
    }
  }

  // ---------------------------------------------------------------------------
  // First occurrences

  /** Reference for the seen-set: the indices of the texts that are at least
      `minLen` long and do not occur earlier in the list. */
  function FirstOccurrences(texts: seq<string>, minLen: nat): (f: seq<nat>)
    ensures forall j :: 0 <= j < |f| ==> f[j] < |texts|
    decreases |texts|
  {
    if texts == [] then []
    else
      var n := |texts| - 1;
      var earlier := FirstOccurrences(texts[..n], minLen);
      if |texts[n]| >= minLen && texts[n] !in texts[..n] then earlier + [n] else earlier
  }

  function PickTexts(texts: seq<string>, picks: seq<nat>): (ts: seq<string>)
    requires forall j :: 0 <= j < |picks| ==> picks[j] < |texts|
    ensures |ts| == |picks|
  {
    seq(|picks|, j requires 0 <= j < |picks| => texts[picks[j]])
  }

  predicate Increasing(f: seq<nat>) {
    forall i, j :: 0 <= i < j < |f| ==> f[i] < f[j]
  }

  /** Every index in `f` holds a long enough text seen there for the first time. */
  predicate FirstOccurrenceIndices(texts: seq<string>, f: seq<nat>, minLen: nat) {
    forall j :: 0 <= j < |f| ==> f[j] < |texts| && |texts[f[j]]| >= minLen && texts[f[j]] !in texts[..f[j]]
  }

  /** The chosen indices are increasing, in range, long enough and first
      occurrences. */
  lemma {:induction false} FirstOccurrencesSound(texts: seq<string>, minLen: nat)
    ensures FirstOccurrenceIndices(texts, FirstOccurrences(texts, minLen), minLen)
    ensures Increasing(FirstOccurrences(texts, minLen))
    decreases |texts|
  {
    if texts != [] {
      var n := |texts| - 1;
      FirstOccurrencesSound(texts[..n], minLen);
      var e := FirstOccurrences(texts[..n], minLen);
      forall j | 0 <= j < |e|
        ensures texts[..n][e[j]] == texts[e[j]] && texts[..n][..e[j]] == texts[..e[j]]
      {
      }
      if |texts[n]| >= minLen && texts[n] !in texts[..n] {
        var f := e + [n];
        assert FirstOccurrences(texts, minLen) == f;
        assert forall j :: 0 <= j < |e| ==> f[j] == e[j];
      } else {
        assert FirstOccurrences(texts, minLen) == e;
        forall j | 0 <= j < |e|
          ensures |texts[e[j]]| >= minLen && texts[e[j]] !in texts[..e[j]]
        {
          assert texts[..n][e[j]] == texts[e[j]];
        }
      }
    }
  }

  /** No text is chosen twice. */
  lemma FirstOccurrencesDistinct(texts: seq<string>, minLen: nat)
    ensures forall i, j :: 0 <= i < j < |FirstOccurrences(texts, minLen)| ==>
      texts[FirstOccurrences(texts, minLen)[i]] != texts[FirstOccurrences(texts, minLen)[j]]
  {
    FirstOccurrencesSound(texts, minLen);
    var f := FirstOccurrences(texts, minLen);
    forall i, j | 0 <= i < j < |f|
      ensures texts[f[i]] != texts[f[j]]
    {
      assert texts[f[i]] == texts[..f[j]][f[i]];
    }
  }

  /** A text is chosen exactly when it occurs in the list and is long enough. */
  lemma {:induction false} FirstOccurrencesComplete(texts: seq<string>, minLen: nat, t: string)
    ensures t in PickTexts(texts, FirstOccurrences(texts, minLen)) <==> t in texts && |t| >= minLen
    decreases |texts|
  {
    FirstOccurrencesSound(texts, minLen);
    var f := FirstOccurrences(texts, minLen);
    if texts != [] {
      var n := |texts| - 1;
      FirstOccurrencesSound(texts[..n], minLen);
      FirstOccurrencesComplete(texts[..n], minLen, t);
      var e := FirstOccurrences(texts[..n], minLen);
      assert texts == texts[..n] + [texts[n]];
      assert PickTexts(texts[..n], e) == PickTexts(texts, e);
      if |texts[n]| >= minLen && texts[n] !in texts[..n] {
        assert PickTexts(texts, f) == PickTexts(texts, e) + [texts[n]];
      }
    }
  }

  /** One more text extends the choice by its index exactly when it is long
      enough and new. */
  lemma FirstOccurrencesSnoc(texts: seq<string>, t: string, minLen: nat)
    ensures FirstOccurrences(texts + [t], minLen) ==
      if |t| >= minLen && t !in texts then FirstOccurrences(texts, minLen) + [|texts|]
      else FirstOccurrences(texts, minLen)
  {
    assert (texts + [t])[..|texts|] == texts;
  }

  /** The texts of the long enough candidates: what a seen-set holds after
      the candidates `cs`. */
  function LongTexts(cs: seq<Candidate>, minLen: nat): set<string>
  {
    set k | 0 <= k < |cs| && |Text(cs[k])| >= minLen :: Text(cs[k])
  }

  lemma TextsSnoc(cs: seq<Candidate>, c: Candidate)
    ensures Texts(cs + [c]) == Texts(cs) + [Text(c)]
  {
    var cs' := cs + [c];
    assert forall k :: 0 <= k < |cs| ==> cs'[k] == cs[k];
    assert cs'[|cs|] == c;
  }

  /** The seen-set after one more candidate. */
  lemma LongTextsSnoc(cs: seq<Candidate>, c: Candidate, minLen: nat)
    ensures LongTexts(cs + [c], minLen) == LongTexts(cs, minLen) + (if |Text(c)| >= minLen then {Text(c)} else {})
  {
    var cs' := cs + [c];
    var extra: set<string> := if |Text(c)| >= minLen then {Text(c)} else {};
    forall t | t in LongTexts(cs', minLen)
      ensures t in LongTexts(cs, minLen) + extra
    {
      var k :| 0 <= k < |cs'| && |Text(cs'[k])| >= minLen && Text(cs'[k]) == t;
      if k < |cs| {
        assert cs'[k] == cs[k];
      }
    }
    forall t | t in LongTexts(cs, minLen)
      ensures t in LongTexts(cs', minLen)
    {
      var k :| 0 <= k < |cs| && |Text(cs[k])| >= minLen && Text(cs[k]) == t;
      assert cs'[k] == cs[k];
    }
    if |Text(c)| >= minLen {
      assert cs'[|cs|] == c;
      assert Text(c) in LongTexts(cs', minLen);
    }
  }

  /** Looking a long enough text up in the seen-set is looking for it among
      the earlier texts. */
  lemma LongTextsMember(cs: seq<Candidate>, t: string, minLen: nat)
    requires |t| >= minLen
    ensures t in LongTexts(cs, minLen) <==> t in Texts(cs)
  {
    if t in Texts(cs) {
      var k :| 0 <= k < |cs| && Texts(cs)[k] == t;
      assert Text(cs[k]) in LongTexts(cs, minLen);
    }
    if t in LongTexts(cs, minLen) {
      var k :| 0 <= k < |cs| && |Text(cs[k])| >= minLen && Text(cs[k]) == t;
      assert Texts(cs)[k] == t;
    }
  }

  // ---------------------------------------------------------------------------
  // The selection

  function Pick(cs: seq<Candidate>, picks: seq<nat>): (r: seq<Candidate>)
    requires forall j :: 0 <= j < |picks| ==> picks[j] < |cs|
    ensures |r| == |picks|
    ensures forall j :: 0 <= j < |r| ==> r[j] == cs[picks[j]]
  {
    seq(|picks|, j requires 0 <= j < |picks| => cs[picks[j]])
  }

  /** The candidates a seen-set lets through: the first match of every
      trimmed text at least `minLen` long, in walking order. */
  function Selected(cs: seq<Candidate>, minLen: nat): (r: seq<Candidate>)
  {
    Pick(cs, FirstOccurrences(Texts(cs), minLen))
  }

  /** One more candidate is selected exactly when its text is long enough
      and new. */
  lemma SelectedSnoc(cs: seq<Candidate>, c: Candidate, minLen: nat)
    ensures Selected(cs + [c], minLen) ==
      if |Text(c)| >= minLen && Text(c) !in Texts(cs) then Selected(cs, minLen) + [c] else Selected(cs, minLen)
  {
    var f := FirstOccurrences(Texts(cs), minLen);
    assert FirstOccurrences(Texts(cs + [c]), minLen) ==
      if |Text(c)| >= minLen && Text(c) !in Texts(cs) then f + [|cs|] else f by {
      TextsSnoc(cs, c);
      FirstOccurrencesSnoc(Texts(cs), Text(c), minLen);
    }
    PickExtended(cs, c, f);
    PickExtendedSnoc(cs, c, f);
  }

  /** Picks among the first candidates ignore a candidate added at the end. */
  lemma PickExtended(cs: seq<Candidate>, c: Candidate, picks: seq<nat>)
    requires forall j :: 0 <= j < |picks| ==> picks[j] < |cs|
    ensures Pick(cs + [c], picks) == Pick(cs, picks)
  {
  }

  lemma PickExtendedSnoc(cs: seq<Candidate>, c: Candidate, picks: seq<nat>)
    requires forall j :: 0 <= j < |picks| ==> picks[j] < |cs|
    ensures Pick(cs + [c], picks + [|cs|]) == Pick(cs, picks) + [c]
  {
  }

  /** What the selection is: long enough texts, each once, and every long
      enough text of the walk among them. */
  lemma SelectedProperties(cs: seq<Candidate>, minLen: nat)
    ensures forall j :: 0 <= j < |Selected(cs, minLen)| ==> |Text(Selected(cs, minLen)[j])| >= minLen
    ensures forall i, j :: 0 <= i < j < |Selected(cs, minLen)| ==>
      Text(Selected(cs, minLen)[i]) != Text(Selected(cs, minLen)[j])
    ensures forall t :: t in Texts(Selected(cs, minLen)) <==> t in Texts(cs) && |t| >= minLen
  {
    var ts := Texts(cs);
    var f := FirstOccurrences(ts, minLen);
    var sel := Selected(cs, minLen);
    FirstOccurrencesSound(ts, minLen);
    FirstOccurrencesDistinct(ts, minLen);
    assert Texts(sel) == PickTexts(ts, f);
    forall t
      ensures t in Texts(sel) <==> t in ts && |t| >= minLen
    {
      FirstOccurrencesComplete(ts, minLen, t);
    }
  }

  /** Every selected candidate is a candidate of the walk. */
  lemma SelectedFromWalk(cs: seq<Candidate>, minLen: nat)
    ensures forall j :: 0 <= j < |Selected(cs, minLen)| ==> Selected(cs, minLen)[j] in cs
  {
    var f := FirstOccurrences(Texts(cs), minLen);
    forall j | 0 <= j < |Selected(cs, minLen)|
      ensures Selected(cs, minLen)[j] in cs
    {
      assert Selected(cs, minLen)[j] == cs[f[j]];
    }
  }

  // ---------------------------------------------------------------------------
  // Walking order, one step at a time

  lemma MatchCandidatesSnoc(index: nat, sentence: string, found: seq<Match>, m: nat)
    requires m < |found|
    ensures MatchCandidates(index, sentence, found[..m + 1]) ==
      MatchCandidates(index, sentence, found[..m]) + [Candidate(index, sentence, found[m])]
  {
  }

  lemma PatternCandidatesSnoc(patterns: seq<Pattern>, p: nat, index: nat, sentence: string)
    requires p < |patterns|
    ensures PatternCandidates(patterns[..p + 1], index, sentence) ==
      PatternCandidates(patterns[..p], index, sentence) + MatchCandidates(index, sentence, patterns[p].findIter(sentence))
  {
    assert patterns[..p + 1][..p] == patterns[..p];
  }

  lemma AllCandidatesSnoc(patterns: seq<Pattern>, sentences: seq<string>, i: nat)
    requires i < |sentences|
    ensures AllCandidates(patterns, sentences[..i + 1]) ==
      AllCandidates(patterns, sentences[..i]) + PatternCandidates(patterns, i, sentences[i])
  {
    assert sentences[..i + 1][..i] == sentences[..i];
  }
}
