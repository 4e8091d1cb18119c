/** ASCII string helpers shared by the text processor, the extractor, the graph
    builder and the exporters.  Strings are sequences of characters; only the
    ASCII letters are case-mapped and only the ASCII white-space characters
    count as white space. */
module Strings {

  datatype Option<+T> = None | Some(value: T)

  /** A prefix one element longer is the shorter prefix and that element. */
  lemma PrefixSnoc<T>(s: seq<T>, k: nat)
    requires k < |s|
    ensures s[..k + 1] == s[..k] + [s[k]]
  {
  }

  lemma PrefixOfPrefix<T>(s: seq<T>, n: nat, j: nat)
    requires j <= n <= |s|
    ensures s[..n][..j] == s[..j]
    ensures j < n ==> s[..n][j] == s[j]
  {
  }

  // ---------------------------------------------------------------------------
  // Character classes

  /** `char::is_whitespace` restricted to ASCII: space, tab, LF, VT, FF, CR. */
  predicate IsWhitespace(c: char) {
    c == ' ' || c == '\t' || c == '\n' || c == '\U{B}' || c == '\U{C}' || c == '\r'
  }

  predicate IsUpper(c: char) { 'A' <= c <= 'Z' }
  predicate IsLowerLetter(c: char) { 'a' <= c <= 'z' }
  predicate IsDigit(c: char) { '0' <= c <= '9' }

  /** The regex class `\w` restricted to ASCII. */
  predicate IsWordChar(c: char) { IsUpper(c) || IsLowerLetter(c) || IsDigit(c) || c == '_' }

  function LowerChar(c: char): (d: char)
    ensures !IsUpper(d)
    ensures IsWordChar(d) <==> IsWordChar(c)
    ensures IsWhitespace(d) <==> IsWhitespace(c)
  {
    if IsUpper(c) then (c as int + 32) as char else c
  }

  /** `str::to_lowercase` on ASCII text. */
  function Lower(s: string): (t: string)
    ensures |t| == |s|
    ensures forall i :: 0 <= i < |s| ==> t[i] == LowerChar(s[i])
  {
    seq(|s|, i requires 0 <= i < |s| => LowerChar(s[i]))
  }

  lemma LowerAppend(a: string, b: string)
    ensures Lower(a + b) == Lower(a) + Lower(b)
  {
    assert forall i :: 0 <= i < |a + b| ==> Lower(a + b)[i] == (Lower(a) + Lower(b))[i];
  }

  lemma LowerIdempotent(s: string)
    ensures Lower(Lower(s)) == Lower(s)
  {
  }

  // ---------------------------------------------------------------------------
  // Trimming

  /** Index of the first non-white-space character (or `|s|`). */
  function ContentStart(s: string, i: nat := 0): (a: nat)
    requires i <= |s|
    requires forall k :: 0 <= k < i ==> IsWhitespace(s[k])
    ensures i <= a <= |s|
    ensures forall k :: 0 <= k < a ==> IsWhitespace(s[k])
    ensures a < |s| ==> !IsWhitespace(s[a])
    decreases |s| - i
  {
    if i < |s| && IsWhitespace(s[i]) then ContentStart(s, i + 1) else i
  }

  /** Index just past the last non-white-space character at or after `a`. */
  function ContentEnd(s: string, a: nat, j: nat): (b: nat)
    requires a <= j <= |s|
    requires forall k :: j <= k < |s| ==> IsWhitespace(s[k])
    ensures a <= b <= j
    ensures forall k :: b <= k < |s| ==> IsWhitespace(s[k])
    ensures a < b ==> !IsWhitespace(s[b - 1])
    decreases j
  {
    if a < j && IsWhitespace(s[j - 1]) then ContentEnd(s, a, j - 1) else j
  }

  predicate Trimmed(s: string) {
    s == [] || (!IsWhitespace(s[0]) && !IsWhitespace(s[|s| - 1]))
  }

  /** `str::trim`: the longest infix of `s` that neither starts nor ends with
      white space; everything cut away on either side is white space. */
  function Trim(s: string): (r: string)
    ensures Trimmed(r) && |r| <= |s|
  {
    var a := ContentStart(s);
    s[a..ContentEnd(s, a, |s|)]
  }

  /** What `Trim` cuts away: white space before `ContentStart(s)` and after
      the kept infix, and nothing else. */
  lemma TrimCutsWhitespace(s: string)
    ensures ContentStart(s) + |Trim(s)| <= |s|
    ensures Trim(s) == s[ContentStart(s)..ContentStart(s) + |Trim(s)|]
    ensures forall k :: 0 <= k < ContentStart(s) ==> IsWhitespace(s[k])
    ensures forall k :: ContentStart(s) + |Trim(s)| <= k < |s| ==> IsWhitespace(s[k])
  {
  }

  lemma TrimOfTrimmed(s: string)
    requires Trimmed(s)
    ensures Trim(s) == s
  {
  }

  // ---------------------------------------------------------------------------
  // Searching

  predicate OccursAt(s: string, p: string, i: nat) {
    i + |p| <= |s| && s[i..i + |p|] == p
  }

  /** Leftmost occurrence of `p` in `s` at or after `i`. */
  function FindFrom(s: string, p: string, i: nat): (r: Option<nat>)
    ensures r.Some? ==> i <= r.value && OccursAt(s, p, r.value)
    ensures r.Some? ==> forall j :: i <= j < r.value ==> !OccursAt(s, p, j)
    ensures r.None? ==> forall j :: i <= j ==> !OccursAt(s, p, j)
    decreases |s| - i
  {
    if i + |p| > |s| then None
    else if s[i..i + |p|] == p then Some(i)
    else FindFrom(s, p, i + 1)
  }

  /** `str::find` with a string pattern: the byte index of the leftmost
      occurrence. */
  function Find(s: string, p: string): (r: Option<nat>)
    ensures r.Some? ==> OccursAt(s, p, r.value) && forall j :: 0 <= j < r.value ==> !OccursAt(s, p, j)
    ensures r.None? ==> forall j :: !OccursAt(s, p, j)
  {
    FindFrom(s, p, 0)
  }

  /** `str::contains` with a string pattern. */
  predicate HasSubstring(s: string, p: string) {
    exists i :: 0 <= i <= |s| - |p| && OccursAt(s, p, i)
  }

  /** `contains` answers yes exactly when `find` finds an index. */
  lemma HasSubstringFind(s: string, p: string)
    ensures HasSubstring(s, p) <==> Find(s, p).Some?
  {
    if Find(s, p).Some? {
      assert OccursAt(s, p, Find(s, p).value);
    }
  }

  lemma HasSubstringAt(s: string, p: string, i: nat)
    requires OccursAt(s, p, i)
    ensures HasSubstring(s, p)
  {
  }

  /** An occurrence inside a piece of the text occurs in that piece. */
  lemma HasSubstringInSlice(s: string, p: string, i: nat, a: nat, b: nat)
    requires OccursAt(s, p, i) && a <= i && i + |p| <= b <= |s|
    ensures HasSubstring(s[a..b], p)
  {
    var u := s[a..b][i - a..i - a + |p|];
    forall k | 0 <= k < |p| ensures u[k] == p[k] {
      assert u[k] == s[i + k] == s[i..i + |p|][k];
    }
    assert u == p;
    HasSubstringAt(s[a..b], p, i - a);
  }

  lemma HasSubstringInfix(u: string, a: nat, b: nat)
    requires a <= b <= |u|
    ensures HasSubstring(u, u[a..b])
  {
    assert OccursAt(u, u[a..b], a);
  }

  /** A trimmed piece of `u` is still a piece of `u`. */
  lemma TrimmedInfix(u: string, a: nat, b: nat)
    requires a <= b <= |u|
    ensures HasSubstring(u, Trim(u[a..b]))
  {
    var piece := u[a..b];
    TrimCutsWhitespace(piece);
    var c := ContentStart(piece);
    var d := Trim(piece);
    assert d == piece[c..c + |d|];
    assert u[a + c..a + c + |d|] == d by {
      forall i | 0 <= i < |d| ensures u[a + c..a + c + |d|][i] == d[i] {
        assert d[i] == piece[c + i] == u[a + c + i];
      }
    }
    HasSubstringAt(u, d, a + c);
  }

  /** A pattern with a character the text lacks does not occur in it. */
  lemma MissingCharNoSubstring(s: string, p: string, c: char)
    requires c in p && c !in s
    ensures !HasSubstring(s, p)
  {
  }

  /** `str::find` with a `char` pattern. */
  function FindChar(s: string, c: char): (r: Option<nat>)
    ensures r.Some? ==> r.value < |s| && s[r.value] == c && forall j :: 0 <= j < r.value ==> s[j] != c
    ensures r.None? ==> c !in s
  {
    if s == [] then None
    else if s[0] == c then Some(0)
    else match FindChar(s[1..], c)
      case None => None
      case Some(k) => Some(k + 1)
  }

  /** `str::rfind` with a `char` pattern. */
  function RFindChar(s: string, c: char): (r: Option<nat>)
    ensures r.Some? ==> r.value < |s| && s[r.value] == c && forall j :: r.value < j < |s| ==> s[j] != c
    ensures r.None? ==> c !in s
  {
    if s == [] then None
    else if s[|s| - 1] == c then Some(|s| - 1)
    else RFindChar(s[..|s| - 1], c)
  }

  // ---------------------------------------------------------------------------
  // Replacing

  /** `str::replace` with a `char` pattern. */
  function ReplaceChar(s: string, c: char, r: string): (t: string)
    ensures c !in r ==> c !in t
    ensures c !in s ==> t == s
    decreases |s|
  {
    if s == [] then []
    else (if s[0] == c then r else [s[0]]) + ReplaceChar(s[1..], c, r)
  }

  lemma {:induction false} ReplaceCharAppend(a: string, b: string, c: char, r: string)
    ensures ReplaceChar(a + b, c, r) == ReplaceChar(a, c, r) + ReplaceChar(b, c, r)
    decreases |a|
  {
    if a == [] {
      assert a + b == b;
    } else {
      assert (a + b)[1..] == a[1..] + b;
      ReplaceCharAppend(a[1..], b, c, r);
    }
  }

  lemma {:induction false} ReplaceCharLength(s: string, c: char, r: string)
    requires |r| == 1
    ensures |ReplaceChar(s, c, r)| == |s|
    ensures forall i :: 0 <= i < |s| ==> ReplaceChar(s, c, r)[i] == if s[i] == c then r[0] else s[i]
    decreases |s|
  {
    if s != [] {
      ReplaceCharLength(s[1..], c, r);
    }
  }

  /** `str::replace` with a non-empty string pattern: non-overlapping matches,
      left to right. */
  function ReplaceStr(s: string, p: string, r: string): string
    requires p != []
    decreases |s|
  {
    if s == [] then []
    else if |p| <= |s| && s[..|p|] == p then r + ReplaceStr(s[|p|..], p, r)
    else [s[0]] + ReplaceStr(s[1..], p, r)
  }

  lemma OccursAtTail(s: string, p: string, i: nat)
    requires s != []
    ensures OccursAt(s[1..], p, i) <==> OccursAt(s, p, i + 1)
  {
    if i + |p| < |s| {
      assert s[1..][i..i + |p|] == s[i + 1..i + 1 + |p|];
    }
  }

  /** Where the pattern never occurs, replacing it changes nothing. */
  lemma {:induction false} ReplaceStrAbsent(s: string, p: string, r: string)
    requires p != []
    requires forall i :: 0 <= i < |s| ==> !OccursAt(s, p, i)
    ensures ReplaceStr(s, p, r) == s
    decreases |s|
  {
    if s != [] {
      assert !OccursAt(s, p, 0);
      forall i | 0 <= i < |s[1..]|
        ensures !OccursAt(s[1..], p, i)
      {
        OccursAtTail(s, p, i);
      }
      ReplaceStrAbsent(s[1..], p, r);
    }
  }

  /** Everything before the first occurrence of the pattern is kept, and
      that occurrence is replaced. */
  lemma {:induction false} ReplaceStrFirst(pre: string, p: string, post: string, r: string)
    requires p != []
    requires forall i :: 0 <= i < |pre| ==> !OccursAt(pre + p + post, p, i)
    ensures ReplaceStr(pre + p + post, p, r) == pre + r + ReplaceStr(post, p, r)
    decreases |pre|
  {
    var s := pre + p + post;
    if pre == [] {
      assert s[..|p|] == p && s[|p|..] == post;
    } else {
      assert !OccursAt(s, p, 0);
      assert s[1..] == pre[1..] + p + post;
      forall i | 0 <= i < |pre[1..]|
        ensures !OccursAt(pre[1..] + p + post, p, i)
      {
        OccursAtTail(s, p, i);
      }
      ReplaceStrFirst(pre[1..], p, post, r);
    }
  }

  // ---------------------------------------------------------------------------
  // Filtering and runs

  predicate NotWhitespace(c: char) { !IsWhitespace(c) }

  /** The characters of `s` that satisfy `keep`, in order. */
  function Filter(s: string, keep: char -> bool): (t: string)
    ensures |t| <= |s|
    ensures forall i :: 0 <= i < |t| ==> keep(t[i])
    decreases |s|
  {
    if s == [] then [] else (if keep(s[0]) then [s[0]] else []) + Filter(s[1..], keep)
  }

  lemma {:induction false} FilterAppend(a: string, b: string, keep: char -> bool)
    ensures Filter(a + b, keep) == Filter(a, keep) + Filter(b, keep)
    decreases |a|
  {
    if a == [] {
      assert a + b == b;
    } else {
      assert (a + b)[1..] == a[1..] + b;
      FilterAppend(a[1..], b, keep);
    }
  }

  lemma {:induction false} FilterAll(s: string, keep: char -> bool)
    requires forall i :: 0 <= i < |s| ==> keep(s[i])
    ensures Filter(s, keep) == s
    decreases |s|
  {
    if s != [] {
      FilterAll(s[1..], keep);
    }
  }

  lemma {:induction false} FilterNone(s: string, keep: char -> bool)
    requires forall i :: 0 <= i < |s| ==> !keep(s[i])
    ensures Filter(s, keep) == []
    decreases |s|
  {
    if s != [] {
      FilterNone(s[1..], keep);
    }
  }

  lemma FilterSplit(s: string, a: nat, keep: char -> bool)
    requires a <= |s|
    ensures Filter(s, keep) == Filter(s[..a], keep) + Filter(s[a..], keep)
  {
    assert s == s[..a] + s[a..];
    FilterAppend(s[..a], s[a..], keep);
  }

  lemma CutThree(s: string, a: nat, b: nat)
    requires a <= b <= |s|
    ensures s == s[..a] + s[a..b] + s[b..]
  {
    assert s[..b] == s[..a] + s[a..b];
    assert s == s[..b] + s[b..];
  }

  /** Cutting out a stretch that `keep` rejects changes nothing kept. */
  lemma FilterCut(s: string, a: nat, b: nat, keep: char -> bool)
    requires a <= b <= |s|
    requires forall i :: 0 <= i < b - a ==> !keep(s[a..][i])
    ensures Filter(s, keep) == Filter(s[..a], keep) + Filter(s[b..], keep)
  {
    var mid := s[a..b];
    FilterNoneSlice(s, a, b, keep);
    CutThree(s, a, b);
    FilterAppend(s[..a] + mid, s[b..], keep);
    FilterAppend(s[..a], mid, keep);
  }

  lemma FilterNoneSlice(s: string, a: nat, b: nat, keep: char -> bool)
    requires a <= b <= |s|
    requires forall i :: 0 <= i < b - a ==> !keep(s[a..][i])
    ensures Filter(s[a..b], keep) == []
  {
    var mid := s[a..b];
    forall i | 0 <= i < |mid|
      ensures !keep(mid[i])
    {
      assert mid[i] == s[a..][i];
    }
    FilterNone(mid, keep);
  }

  lemma TrimIsSlice(s: string)
    ensures ContentStart(s) + |Trim(s)| <= |s|
    ensures Trim(s) == s[ContentStart(s)..ContentStart(s) + |Trim(s)|]
  {
    TrimCutsWhitespace(s);
  }

  lemma TrimEdgesRejected(s: string, keep: char -> bool)
    requires forall c :: IsWhitespace(c) ==> !keep(c)
    ensures ContentStart(s) + |Trim(s)| <= |s|
    ensures Filter(s[..ContentStart(s)], keep) == []
    ensures Filter(s[ContentStart(s) + |Trim(s)|..], keep) == []
  {
    var a, b := ContentStart(s), ContentStart(s) + |Trim(s)|;
    assert b <= |s| && forall k :: 0 <= k < |s[..a]| ==> IsWhitespace(s[..a][k]) by {
      TrimCutsWhitespace(s);
    }
    WhitespaceRejected(s[..a], keep);
    assert forall k :: 0 <= k < |s[b..]| ==> IsWhitespace(s[b..][k]) by {
      TrimCutsWhitespace(s);
      assert forall k :: 0 <= k < |s[b..]| ==> s[b..][k] == s[b + k];
    }
    WhitespaceRejected(s[b..], keep);
  }

  lemma WhitespaceRejected(t: string, keep: char -> bool)
    requires forall c :: IsWhitespace(c) ==> !keep(c)
    requires forall k :: 0 <= k < |t| ==> IsWhitespace(t[k])
    ensures Filter(t, keep) == []
  {
    FilterNone(t, keep);
  }

  /** Trimming only removes characters that `keep` rejects anyway. */
  lemma FilterTrim(s: string, keep: char -> bool)
    requires forall c :: IsWhitespace(c) ==> !keep(c)
    ensures Filter(Trim(s), keep) == Filter(s, keep)
  {
    TrimIsSlice(s);
    TrimEdgesRejected(s, keep);
    var a := ContentStart(s);
    var r := Trim(s);
    CutThree(s, a, a + |r|);
    FilterAppend(s[..a] + r, s[a + |r|..], keep);
    FilterAppend(s[..a], r, keep);
  }

  /** Length of the longest prefix of `s` whose characters satisfy `p`. */
  function RunLength(s: string, p: char -> bool): (n: nat)
    ensures n <= |s|
    ensures forall i :: 0 <= i < n ==> p(s[i])
    ensures n < |s| ==> !p(s[n])
    decreases |s|
  {
    if s == [] || !p(s[0]) then 0 else 1 + RunLength(s[1..], p)
  }

  /** Index of the first character of `s` satisfying `p`. */
  function FirstIndex(s: string, p: char -> bool): (r: Option<nat>)
    ensures r.Some? ==> r.value < |s| && p(s[r.value]) && forall i :: 0 <= i < r.value ==> !p(s[i])
    ensures r.None? ==> forall i :: 0 <= i < |s| ==> !p(s[i])
    decreases |s|
  {
    if s == [] then None
    else if p(s[0]) then Some(0)
    else match FirstIndex(s[1..], p)
      case None => None
      case Some(k) => Some(k + 1)
  }

  function Concat(parts: seq<string>): string {
    if parts == [] then [] else parts[0] + Concat(parts[1..])
  }

  // ---------------------------------------------------------------------------
  // White-space separated words

  predicate IsWord(w: string) {
    w != [] && forall i :: 0 <= i < |w| ==> !IsWhitespace(w[i])
  }

  /** `str::split_whitespace`: the maximal runs of non-white-space characters. */
  function SplitWhitespace(s: string): (words: seq<string>)
    ensures forall k :: 0 <= k < |words| ==> IsWord(words[k])
    decreases |s|
  {
    if s == [] then []
    else if IsWhitespace(s[0]) then SplitWhitespace(s[1..])
    else
      var n := RunLength(s, NotWhitespace);
      [s[..n]] + SplitWhitespace(s[n..])
  }

  /** The words of `s`, glued together, are exactly the non-white-space
      characters of `s`, in order: splitting loses only white space. */
  lemma {:induction false} SplitWhitespaceKeepsText(s: string)
    ensures Concat(SplitWhitespace(s)) == Filter(s, NotWhitespace)
    decreases |s|
  {
    if s == [] {
    } else if IsWhitespace(s[0]) {
      SplitWhitespaceKeepsText(s[1..]);
    } else {
      var n := RunLength(s, NotWhitespace);
      SplitWhitespaceKeepsText(s[n..]);
      assert s == s[..n] + s[n..];
      FilterAppend(s[..n], s[n..], NotWhitespace);
      FilterAll(s[..n], NotWhitespace);
    }
  }

  lemma SplitWhitespaceOfWord(w: string, rest: string)
    requires IsWord(w)
    requires rest == [] || IsWhitespace(rest[0])
    ensures SplitWhitespace(w + rest) == [w] + SplitWhitespace(rest)
    decreases |w|
  {
    var s := w + rest;
    RunLengthOfWord(w, rest);
    assert s[..|w|] == w && s[|w|..] == rest;
  }

  lemma {:induction false} RunLengthOfWord(w: string, rest: string)
    requires forall i :: 0 <= i < |w| ==> !IsWhitespace(w[i])
    requires rest == [] || IsWhitespace(rest[0])
    ensures RunLength(w + rest, NotWhitespace) == |w|
    decreases |w|
  {
    if w != [] {
      assert (w + rest)[1..] == w[1..] + rest;
      RunLengthOfWord(w[1..], rest);
    } else {
      assert w + rest == rest;
    }
  }

  /** Joining words with single spaces and splitting on white space gives the
      words back. */
  lemma {:induction false} SplitJoinRoundTrip(words: seq<string>)
    requires forall k :: 0 <= k < |words| ==> IsWord(words[k])
    ensures SplitWhitespace(Join(words, " ")) == words
    decreases |words|
  {
    if |words| == 1 {
      SplitWhitespaceOfWord(words[0], []);
      assert words[0] + [] == words[0];
    } else if |words| > 1 {
      var rest := Join(words[1..], " ");
      SplitJoinRoundTrip(words[1..]);
      assert Join(words, " ") == words[0] + (" " + rest);
      SplitWhitespaceOfWord(words[0], " " + rest);
      assert (" " + rest)[1..] == rest;
    }
  }

  /** `[..].join(sep)`. */
  function Join(parts: seq<string>, sep: string): string {
    if |parts| == 0 then []
    else if |parts| == 1 then parts[0]
    else parts[0] + sep + Join(parts[1..], sep)
  }

  /** The first occurrence of `c` is found right after a prefix without it. */
  lemma FindCharAfter(a: string, c: char, b: string)
    requires c !in a
    ensures FindChar(a + [c] + b, c) == Some(|a|)
  {
    var s := a + [c] + b;
    assert s[|a|] == c;
    assert forall j :: 0 <= j < |a| ==> s[j] == a[j];
  }

  /** The last occurrence of `c` is found right before a suffix without it. */
  lemma RFindCharAfter(a: string, c: char, b: string)
    requires c !in b
    ensures RFindChar(a + [c] + b, c) == Some(|a|)
  {
    var s := a + [c] + b;
    assert s[|a|] == c;
    assert forall j :: |a| < j < |s| ==> s[j] == b[j - |a| - 1];
  }

  /** The pieces of `s` between the occurrences of `c`. */
  function SplitOn(s: string, c: char): (parts: seq<string>)
    ensures |parts| >= 1
    decreases |s|
  {
    match FindChar(s, c)
    case None => [s]
    case Some(i) => [s[..i]] + SplitOn(s[i + 1..], c)
  }

  /** Joining pieces that do not hold the separator and splitting the result
      gives the pieces back. */
  lemma {:induction false} SplitJoin(parts: seq<string>, c: char)
    requires |parts| >= 1
    requires forall k :: 0 <= k < |parts| ==> c !in parts[k]
    ensures SplitOn(Join(parts, [c]), c) == parts
    decreases |parts|
  {
    if |parts| > 1 {
      var rest := Join(parts[1..], [c]);
      FindCharAfter(parts[0], c, rest);
      var s := parts[0] + [c] + rest;
      assert s[..|parts[0]|] == parts[0] && s[|parts[0]| + 1..] == rest;
      SplitJoin(parts[1..], c);
    }
  }

  /** The text of `s` before the first `c`, or all of it. */
  function UpTo(s: string, c: char): (t: string)
    ensures c !in t
  {
    match FindChar(s, c)
    case None => s
    case Some(i) => s[..i]
  }

  // ---------------------------------------------------------------------------
  // Decimal numerals

  function DigitChar(d: nat): (c: char)
    requires d < 10
    ensures IsDigit(c)
  {
    (48 + d) as char
  }

  /** `usize::to_string`. */
  function Decimal(n: nat): (s: string)
    ensures |s| >= 1
    ensures forall i :: 0 <= i < |s| ==> IsDigit(s[i])
    ensures s[0] == '0' <==> n == 0
    decreases n
  {
    if n < 10 then [DigitChar(n)] else Decimal(n / 10) + [DigitChar(n % 10)]
  }

  function DigitValue(c: char): (d: nat)
    requires IsDigit(c)
    ensures d < 10
  {
    c as int - 48
  }

  function DigitsValue(s: string): nat
    requires forall i :: 0 <= i < |s| ==> IsDigit(s[i])
  {
    if s == [] then 0 else 10 * DigitsValue(s[..|s| - 1]) + DigitValue(s[|s| - 1])
  }

  /** Reading a numeral back gives the number: `Decimal` loses nothing. */
  lemma {:induction false} DecimalRoundTrip(n: nat)
    ensures DigitsValue(Decimal(n)) == n
    decreases n
  {
    if n >= 10 {
      DecimalRoundTrip(n / 10);
      var s := Decimal(n);
      assert s[..|s| - 1] == Decimal(n / 10);
    }
  }

  lemma DecimalInjective(a: nat, b: nat)
    requires Decimal(a) == Decimal(b)
    ensures a == b
  {
    DecimalRoundTrip(a);
    DecimalRoundTrip(b);
  }

  /** `format!("{:02}", n)`: at least two digits, padded with a leading zero. */
  function ZeroPad2(n: nat): (s: string)
    ensures |s| >= 2
    ensures forall i :: 0 <= i < |s| ==> IsDigit(s[i])
  {
    if n < 10 then "0" + Decimal(n) else Decimal(n)
  }

  lemma ZeroPad2Injective(a: nat, b: nat)
    requires ZeroPad2(a) == ZeroPad2(b)
    ensures a == b
  {
    if a < 10 && b < 10 {
      assert Decimal(a) == ZeroPad2(a)[1..];
      DecimalInjective(a, b);
    } else if a >= 10 && b >= 10 {
      DecimalInjective(a, b);
    } else {
      assert false;
    }
  }
}
