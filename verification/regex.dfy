/** The regular-expression library, seen only through its answers.  A compiled
    pattern is a record of functions: what `find_iter`, `is_match` and
    `captures` return on a haystack.  The only thing assumed about those
    answers is that every reported match is a piece of the haystack. */
module Regex {
  import opened Strings

  /** A `regex::Match`: its byte offsets and the text `as_str` returns. */
  datatype Match = Match(start: nat, end: nat, text: string)

  /** The match is the piece of `s` between its offsets. */
  predicate FoundIn(m: Match, s: string) {
    m.start <= m.end <= |s| && m.text == s[m.start..m.end]
  }

  /** A compiled `regex::Regex`.
      - `findIter(s)`: the matches of `find_iter`, left to right;
      - `isMatch(s)`: `is_match`;
      - `capture1(s)`: group 1 of the first match of `captures`, if any;
      - `captures12(s)`: groups 1 and 2 of every match of `captures_iter`. */
  datatype Pattern = Pattern(
    source: string,
    findIter: string -> seq<Match>,
    isMatch: string -> bool,
    capture1: string -> Option<Match>,
    captures12: string -> seq<(Match, Match)>)

  /** Every match the library reports is a piece of the haystack. */
  ghost predicate Valid(p: Pattern) {
    (forall s, k :: 0 <= k < |p.findIter(s)| ==> FoundIn(p.findIter(s)[k], s)) &&
    (forall s :: p.capture1(s).Some? ==> FoundIn(p.capture1(s).value, s)) &&
    (forall s, k :: 0 <= k < |p.captures12(s)| ==>
       FoundIn(p.captures12(s)[k].0, s) && FoundIn(p.captures12(s)[k].1, s))
  }

  ghost predicate AllValid(ps: seq<Pattern>) {
    forall k :: 0 <= k < |ps| ==> Valid(ps[k])
  }

  /** `Regex::new`: compiling a pattern string, which may fail. */
  datatype Compiler = Compiler(compile: string -> Option<Pattern>)

  ghost predicate ValidCompiler(c: Compiler) {
    forall src :: c.compile(src).Some? ==> Valid(c.compile(src).value) && c.compile(src).value.source == src
  }

  /** The characters `regex::escape` prefixes with a backslash. */
  predicate IsMeta(c: char) {
    c in "\\.+*?()|[]{}^$#&-~"
  }

  /** `regex::escape`: a pattern matching exactly the literal text `s`. */
  function Escape(s: string): (r: string)
    ensures |r| >= |s|
    decreases |s|
  {
    if s == [] then []
    else (if IsMeta(s[0]) then ['\\', s[0]] else [s[0]]) + Escape(s[1..])
  }

  /** Reading an escaped literal back: a backslash quotes the next character. */
  function Unescape(r: string): string
    decreases |r|
  {
    if r == [] then []
    else if r[0] == '\\' && |r| >= 2 then [r[1]] + Unescape(r[2..])
    else [r[0]] + Unescape(r[1..])
  }

  lemma {:induction false} EscapeRoundTrip(s: string)
    ensures Unescape(Escape(s)) == s
    decreases |s|
  {
    if s != [] {
      EscapeRoundTrip(s[1..]);
      var head := if IsMeta(s[0]) then ['\\', s[0]] else [s[0]];
      assert Escape(s) == head + Escape(s[1..]);
      if IsMeta(s[0]) {
        assert (head + Escape(s[1..]))[2..] == Escape(s[1..]);
      } else {
        assert s[0] != '\\';
        assert (head + Escape(s[1..]))[1..] == Escape(s[1..]);
      }
    }
  }

  lemma EscapeInjective(a: string, b: string)
    requires Escape(a) == Escape(b)
    ensures a == b
  {
    EscapeRoundTrip(a);
    EscapeRoundTrip(b);
  }
}
