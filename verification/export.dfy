/** Export: the escaping the GraphML and DOT writers apply to text fields,
    the CSV label sanitising, the extension check, the serialized output
    name under `0_networks/`, and what every exporter reports. */
module Export {
  import opened Strings
  import opened Config
  import opened Graph

  // ---------------------------------------------------------------------------
  // Escaping, character by character

  /** The text of `s` with every character replaced by `esc` of it. */
  function EscapeEach(s: string, esc: char -> string): string
    decreases |s|
  {
    if s == [] then [] else esc(s[0]) + EscapeEach(s[1..], esc)
  }

  lemma {:induction false} EscapeEachAppend(a: string, b: string, esc: char -> string)
    ensures EscapeEach(a + b, esc) == EscapeEach(a, esc) + EscapeEach(b, esc)
    decreases |a|
  {
    if a == [] {
      assert a + b == b;
    } else {
      assert (a + b)[1..] == a[1..] + b;
      EscapeEachAppend(a[1..], b, esc);
    }
  }

  /** No character is dropped, and a character escaped to more than one
      makes the text longer. */
  lemma {:induction false} EscapeEachLength(s: string, esc: char -> string)
    requires forall c :: |esc(c)| >= 1
    ensures |EscapeEach(s, esc)| >= |s|
    ensures (exists i :: 0 <= i < |s| && |esc(s[i])| > 1) ==> |EscapeEach(s, esc)| > |s|
    decreases |s|
  {
    if s != [] {
      EscapeEachLength(s[1..], esc);
      if exists i :: 0 <= i < |s| && |esc(s[i])| > 1 {
        var i :| 0 <= i < |s| && |esc(s[i])| > 1;
        if i > 0 {
          assert s[1..][i - 1] == s[i];
        }
      }
    }
  }

  /** A chain of `replace` calls, applied in order. */
  function ReplaceEach(s: string, steps: seq<(char, string)>): string
    decreases |steps|
  {
    if steps == [] then s else ReplaceEach(ReplaceChar(s, steps[0].0, steps[0].1), steps[1..])
  }

  lemma {:induction false} ReplaceEachAppend(a: string, b: string, steps: seq<(char, string)>)
    ensures ReplaceEach(a + b, steps) == ReplaceEach(a, steps) + ReplaceEach(b, steps)
    decreases |steps|
  {
    if steps != [] {
      ReplaceCharAppend(a, b, steps[0].0, steps[0].1);
      ReplaceEachAppend(ReplaceChar(a, steps[0].0, steps[0].1), ReplaceChar(b, steps[0].0, steps[0].1), steps[1..]);
    }
  }

  lemma {:induction false} ReplaceEachAbsent(s: string, steps: seq<(char, string)>)
    requires forall j :: 0 <= j < |steps| ==> steps[j].0 !in s
    ensures ReplaceEach(s, steps) == s
    decreases |steps|
  {
    if steps != [] {
      assert forall j :: 0 <= j < |steps[1..]| ==> steps[1..][j] == steps[j + 1];
      ReplaceEachAbsent(s, steps[1..]);
    }
  }

  lemma ReplaceCharSingle(c: char, d: char, r: string)
    ensures ReplaceChar([c], d, r) == if c == d then r else [c]
  {
    assert [c][1..] == [];
  }

  /** No step looks for a character an earlier step writes. */
  predicate Unchained(steps: seq<(char, string)>) {
    forall i, j :: 0 <= i < j < |steps| ==> steps[j].0 !in steps[i].1
  }

  /** The replacement of the first step that looks for `c`, or `c` itself. */
  function FirstReplacement(c: char, steps: seq<(char, string)>): string
    decreases |steps|
  {
    if steps == [] then [c]
    else if steps[0].0 == c then steps[0].1
    else FirstReplacement(c, steps[1..])
  }

  /** An unchained chain turns a character into the replacement of the
      first step that looks for it, and leaves that replacement alone. */
  lemma {:induction false} ReplaceEachChar(c: char, steps: seq<(char, string)>)
    requires Unchained(steps)
    ensures ReplaceEach([c], steps) == FirstReplacement(c, steps)
    decreases |steps|
  {
    if steps != [] {
      ReplaceCharSingle(c, steps[0].0, steps[0].1);
      assert forall j :: 0 <= j < |steps[1..]| ==> steps[1..][j] == steps[j + 1];
      if steps[0].0 == c {
        ReplaceEachAbsent(steps[0].1, steps[1..]);
      } else {
        ReplaceEachChar(c, steps[1..]);
      }
    }
  }

  /** So an unchained chain acts on each character alone. */
  lemma {:induction false} ReplaceEachPerChar(s: string, steps: seq<(char, string)>, esc: char -> string)
    requires Unchained(steps)
    requires forall c :: esc(c) == FirstReplacement(c, steps)
    ensures ReplaceEach(s, steps) == EscapeEach(s, esc)
    decreases |s|
  {
    if s != [] {
      assert s == [s[0]] + s[1..];
      ReplaceEachAppend([s[0]], s[1..], steps);
      ReplaceEachChar(s[0], steps);
      ReplaceEachPerChar(s[1..], steps, esc);
      assert EscapeEach(s, esc) == esc(s[0]) + EscapeEach(s[1..], esc);
    } else {
      ReplaceEachAbsent(s, steps);
    }
  }

  // ---------------------------------------------------------------------------
  // XML

  /** The replacement `escape_xml` makes for one character. */
  function XmlEntity(c: char): string {
    match c
    case '&' => "&amp;"
    case '<' => "&lt;"
    case '>' => "&gt;"
    case '"' => "&quot;"
    case '\'' => "&apos;"
    case _ => [c]
  }

  predicate XmlSpecial(c: char) {
    c == '&' || c == '<' || c == '>' || c == '"' || c == '\''
  }

  /** The replacements of `escape_xml`, in the order it makes them. */
  const XmlSteps: seq<(char, string)> :=
    [('&', "&amp;"), ('<', "&lt;"), ('>', "&gt;"), ('"', "&quot;"), ('\'', "&apos;")]

  /** `escape_xml`: five `replace` calls in a fixed order, `&` first. */
  function EscapeXml(s: string): string {
    ReplaceEach(s, XmlSteps)
  }

  /** No replacement holds a character a later `replace` looks for, and
      each character's entity is its first replacement. */
  lemma XmlStepsUnchained()
    ensures Unchained(XmlSteps)
  {
  }

  lemma XmlStepsFirst()
    ensures forall c :: XmlEntity(c) == FirstReplacement(c, XmlSteps)
  {
  }

  lemma EscapeXmlPerChar(s: string)
    ensures EscapeXml(s) == EscapeEach(s, XmlEntity)
  {
    XmlStepsUnchained();
    XmlStepsFirst();
    ReplaceEachPerChar(s, XmlSteps, XmlEntity);
  }

  /** An entity of the five starts at `i`. */
  predicate EntityAt(t: string, i: nat) {
    OccursAt(t, "&amp;", i) || OccursAt(t, "&lt;", i) || OccursAt(t, "&gt;", i) ||
    OccursAt(t, "&quot;", i) || OccursAt(t, "&apos;", i)
  }

  /** Text safe inside an XML attribute or element: no raw `<`, `>`, `"` or
      `'`, and every `&` opens an entity. */
  predicate XmlSafe(t: string) {
    forall i :: 0 <= i < |t| ==>
      t[i] != '<' && t[i] != '>' && t[i] != '"' && t[i] != '\'' && (t[i] == '&' ==> EntityAt(t, i))
  }

  lemma OccursAtShift(a: string, b: string, p: string, i: nat)
    requires OccursAt(b, p, i)
    ensures OccursAt(a + b, p, |a| + i)
  {
    assert (a + b)[|a| + i..|a| + i + |p|] == b[i..i + |p|];
  }

  lemma {:induction false} XmlSafeEach(s: string)
    ensures XmlSafe(EscapeEach(s, XmlEntity))
    decreases |s|
  {
    if s != [] {
      XmlSafeEach(s[1..]);
      var e, rest := XmlEntity(s[0]), EscapeEach(s[1..], XmlEntity);
      var t := e + rest;
      forall i | 0 <= i < |t|
        ensures t[i] != '<' && t[i] != '>' && t[i] != '"' && t[i] != '\'' && (t[i] == '&' ==> EntityAt(t, i))
      {
        if i < |e| {
          assert t[i] == e[i];
          if t[i] == '&' {
            assert i == 0;
            assert OccursAt(t, e, 0) by { assert t[..|e|] == e; }
          }
        } else {
          assert t[i] == rest[i - |e|];
          if t[i] == '&' {
            var j := i - |e|;
            if OccursAt(rest, "&amp;", j) { OccursAtShift(e, rest, "&amp;", j); }
            else if OccursAt(rest, "&lt;", j) { OccursAtShift(e, rest, "&lt;", j); }
            else if OccursAt(rest, "&gt;", j) { OccursAtShift(e, rest, "&gt;", j); }
            else if OccursAt(rest, "&quot;", j) { OccursAtShift(e, rest, "&quot;", j); }
            else { OccursAtShift(e, rest, "&apos;", j); }
          }
        }
      }
    }
  }

  /** Decodes the five entities left to right; anything else stands for
      itself. */
  function UnescapeXml(t: string): string
    decreases |t|
  {
    if t == [] then []
    else if t[0] != '&' then [t[0]] + UnescapeXml(t[1..])
    else if |t| >= 5 && t[..5] == "&amp;" then "&" + UnescapeXml(t[5..])
    else if |t| >= 4 && t[..4] == "&lt;" then "<" + UnescapeXml(t[4..])
    else if |t| >= 4 && t[..4] == "&gt;" then ">" + UnescapeXml(t[4..])
    else if |t| >= 6 && t[..6] == "&quot;" then "\"" + UnescapeXml(t[6..])
    else if |t| >= 6 && t[..6] == "&apos;" then "'" + UnescapeXml(t[6..])
    else [t[0]] + UnescapeXml(t[1..])
  }

  /** Decoding the escape of a character yields the character and goes on
      after it. */
  lemma UnescapeXmlStep(c: char, rest: string)
    ensures UnescapeXml(XmlEntity(c) + rest) == [c] + UnescapeXml(rest)
  {
    if XmlSpecial(c) {
      UnescapeXmlEntity(c, rest);
    } else {
      var t := XmlEntity(c) + rest;
      assert t[0] == c;
      assert t[1..] == rest;
    }
  }

  /** Each entity decodes to its character, whatever follows it. */
  lemma UnescapeXmlEntity(c: char, rest: string)
    requires XmlSpecial(c)
    ensures UnescapeXml(XmlEntity(c) + rest) == [c] + UnescapeXml(rest)
  {
    var t := XmlEntity(c) + rest;
    if c == '&' {
      assert t[..5] == "&amp;" && t[5..] == rest;
    } else if c == '<' {
      assert t[..4] == "&lt;" && t[4..] == rest && t[1] == 'l';
    } else if c == '>' {
      assert t[..4] == "&gt;" && t[4..] == rest && t[1] == 'g';
    } else if c == '"' {
      assert t[..6] == "&quot;" && t[6..] == rest && t[1] == 'q';
    } else {
      assert t[..6] == "&apos;" && t[6..] == rest && t[2] == 'p';
    }
  }

  lemma {:induction false} UnescapeXmlEach(s: string)
    ensures UnescapeXml(EscapeEach(s, XmlEntity)) == s
    decreases |s|
  {
    if s != [] {
      UnescapeXmlEach(s[1..]);
      UnescapeXmlStep(s[0], EscapeEach(s[1..], XmlEntity));
      assert s == [s[0]] + s[1..];
    }
  }

  /** `escape_xml` leaves no raw `<`, `>`, `"` or `'`, and every `&` it
      leaves opens an entity. */
  lemma EscapeXmlSafe(s: string)
    ensures XmlSafe(EscapeXml(s))
  {
    EscapeXmlPerChar(s);
    XmlSafeEach(s);
  }

  /** Decoding the entities gives the text back. */
  lemma EscapeXmlRoundTrip(s: string)
    ensures UnescapeXml(EscapeXml(s)) == s
  {
    EscapeXmlPerChar(s);
    UnescapeXmlEach(s);
  }

  /** `escape_xml` changes exactly the texts holding one of its five
      characters. */
  lemma EscapeXmlIdentity(s: string)
    ensures EscapeXml(s) == s <==> forall i :: 0 <= i < |s| ==> !XmlSpecial(s[i])
  {
    EscapeXmlPerChar(s);
    XmlEntitySizes();
    EscapeEachLength(s, XmlEntity);
    if forall i :: 0 <= i < |s| ==> !XmlSpecial(s[i]) {
      EscapeEachIdentity(s, XmlEntity, XmlSpecial);
    } else {
      var i :| 0 <= i < |s| && XmlSpecial(s[i]);
      assert |XmlEntity(s[i])| > 1;
    }
  }

  lemma XmlEntitySizes()
    ensures forall c :: |XmlEntity(c)| >= 1
    ensures forall c :: XmlSpecial(c) ==> |XmlEntity(c)| > 1
    ensures forall c :: !XmlSpecial(c) ==> XmlEntity(c) == [c]
  {
  }

  /** An escaper that keeps every ordinary character keeps a text of
      ordinary characters. */
  lemma {:induction false} EscapeEachIdentity(s: string, esc: char -> string, special: char -> bool)
    requires forall c :: !special(c) ==> esc(c) == [c]
    requires forall i :: 0 <= i < |s| ==> !special(s[i])
    ensures EscapeEach(s, esc) == s
    decreases |s|
  {
    if s != [] {
      assert forall i :: 0 <= i < |s[1..]| ==> s[1..][i] == s[i + 1];
      EscapeEachIdentity(s[1..], esc, special);
      assert s == [s[0]] + s[1..];
    }
  }

  // ---------------------------------------------------------------------------
  // DOT

  /** The replacement `escape_dot` makes for one character. */
  function DotEscape(c: char): string {
    match c
    case '\\' => "\\\\"
    case '"' => "\\\""
    case '\n' => "\\n"
    case '\r' => "\\r"
    case '\t' => "\\t"
    case _ => [c]
  }

  predicate DotSpecial(c: char) {
    c == '\\' || c == '"' || c == '\n' || c == '\r' || c == '\t'
  }

  /** The replacements of `escape_dot`, in the order it makes them. */
  const DotSteps: seq<(char, string)> :=
    [('\\', "\\\\"), ('"', "\\\""), ('\n', "\\n"), ('\r', "\\r"), ('\t', "\\t")]

  /** `escape_dot`: five `replace` calls in a fixed order, `\` first. */
  function EscapeDot(s: string): string {
    ReplaceEach(s, DotSteps)
  }

  lemma DotStepsUnchained()
    ensures Unchained(DotSteps)
    ensures forall c :: DotEscape(c) == FirstReplacement(c, DotSteps)
  {
  }

  lemma EscapeDotPerChar(s: string)
    ensures EscapeDot(s) == EscapeEach(s, DotEscape)
  {
    DotStepsUnchained();
    ReplaceEachPerChar(s, DotSteps, DotEscape);
  }

  /** Text safe inside a quoted DOT string: no raw line break or tab, and
      every `"` escaped by the backslash before it. */
  predicate DotSafe(t: string) {
    forall i :: 0 <= i < |t| ==>
      t[i] != '\n' && t[i] != '\r' && t[i] != '\t' && (t[i] == '"' ==> i > 0 && t[i - 1] == '\\')
  }

  lemma {:induction false} DotSafeEach(s: string)
    ensures DotSafe(EscapeEach(s, DotEscape))
    decreases |s|
  {
    if s != [] {
      DotSafeEach(s[1..]);
      var e, rest := DotEscape(s[0]), EscapeEach(s[1..], DotEscape);
      var t := e + rest;
      forall i | 0 <= i < |t|
        ensures t[i] != '\n' && t[i] != '\r' && t[i] != '\t' && (t[i] == '"' ==> i > 0 && t[i - 1] == '\\')
      {
        if i < |e| {
          assert t[i] == e[i];
        } else {
          assert t[i] == rest[i - |e|];
          if t[i] == '"' && i > |e| {
            assert t[i - 1] == rest[i - 1 - |e|];
          }
        }
      }
    }
  }

  /** Decodes the five backslash escapes left to right; anything else
      stands for itself. */
  function UnescapeDot(t: string): string
    decreases |t|
  {
    if t == [] then []
    else if |t| >= 2 && t[0] == '\\' && t[1] == '\\' then "\\" + UnescapeDot(t[2..])
    else if |t| >= 2 && t[0] == '\\' && t[1] == '"' then "\"" + UnescapeDot(t[2..])
    else if |t| >= 2 && t[0] == '\\' && t[1] == 'n' then "\n" + UnescapeDot(t[2..])
    else if |t| >= 2 && t[0] == '\\' && t[1] == 'r' then "\r" + UnescapeDot(t[2..])
    else if |t| >= 2 && t[0] == '\\' && t[1] == 't' then "\t" + UnescapeDot(t[2..])
    else [t[0]] + UnescapeDot(t[1..])
  }

  lemma UnescapeDotStep(c: char, rest: string)
    ensures UnescapeDot(DotEscape(c) + rest) == [c] + UnescapeDot(rest)
  {
    var e := DotEscape(c);
    var t := e + rest;
    if DotSpecial(c) {
      assert t[0] == '\\' && t[1] == e[1];
      assert t[2..] == rest;
    } else {
      assert t[0] == c;
      assert t[1..] == rest;
    }
  }

  lemma {:induction false} UnescapeDotEach(s: string)
    ensures UnescapeDot(EscapeEach(s, DotEscape)) == s
    decreases |s|
  {
    if s != [] {
      UnescapeDotEach(s[1..]);
      UnescapeDotStep(s[0], EscapeEach(s[1..], DotEscape));
      assert s == [s[0]] + s[1..];
    }
  }

  /** `escape_dot` leaves no raw line break or tab and escapes every `"`. */
  lemma EscapeDotSafe(s: string)
    ensures DotSafe(EscapeDot(s))
  {
    EscapeDotPerChar(s);
    DotSafeEach(s);
  }

  /** Decoding the escapes gives the text back. */
  lemma EscapeDotRoundTrip(s: string)
    ensures UnescapeDot(EscapeDot(s)) == s
  {
    EscapeDotPerChar(s);
    UnescapeDotEach(s);
  }

  /** `escape_dot` changes exactly the texts holding one of its five
      characters. */
  lemma EscapeDotIdentity(s: string)
    ensures EscapeDot(s) == s <==> forall i :: 0 <= i < |s| ==> !DotSpecial(s[i])
  {
    EscapeDotPerChar(s);
    DotEscapeSizes();
    EscapeEachLength(s, DotEscape);
    if forall i :: 0 <= i < |s| ==> !DotSpecial(s[i]) {
      EscapeEachIdentity(s, DotEscape, DotSpecial);
    } else {
      var i :| 0 <= i < |s| && DotSpecial(s[i]);
      assert |DotEscape(s[i])| > 1;
    }
  }

  lemma DotEscapeSizes()
    ensures forall c :: |DotEscape(c)| >= 1
    ensures forall c :: DotSpecial(c) ==> |DotEscape(c)| > 1
    ensures forall c :: !DotSpecial(c) ==> DotEscape(c) == [c]
  {
  }

  // ---------------------------------------------------------------------------
  // Formats

  datatype ExportFormat = Html | Json | Csv | GraphML | Dot

  /** `{:?}` of a format. */
  function FormatDebug(f: ExportFormat): string {
    match f
    case Html => "Html"
    case Json => "Json"
    case Csv => "Csv"
    case GraphML => "GraphML"
    case Dot => "Dot"
  }

  /** The name an exporter records as `exported_format`. */
  function FormatName(f: ExportFormat): string {
    match f
    case Html => "HTML"
    case Json => "JSON"
    case Csv => "CSV"
    case GraphML => "GraphML"
    case Dot => "DOT"
  }

  /** The extension `validate_export_path` expects for a format. */
  function ExpectedExtension(f: ExportFormat): string {
    match f
    case Html => "html"
    case Json => "json"
    case Csv => "csv"
    case GraphML => "graphml"
    case Dot => "dot"
  }

  /** `get_supported_formats`. */
  function SupportedFormats(): seq<ExportFormat> {
    [Html, ExportFormat.Json, Csv, GraphML, Dot]
  }

  /** Every format is supported, and listed once. */
  lemma SupportedFormatsOnce()
    ensures forall f :: f in SupportedFormats()
    ensures forall i, j :: 0 <= i < j < |SupportedFormats()| ==> SupportedFormats()[i] != SupportedFormats()[j]
  {
    forall f ensures f in SupportedFormats() {
      match f
      case Html => assert SupportedFormats()[0] == f;
      case Json => assert SupportedFormats()[1] == f;
      case Csv => assert SupportedFormats()[2] == f;
      case GraphML => assert SupportedFormats()[3] == f;
      case Dot => assert SupportedFormats()[4] == f;
    }
  }

  /** The format whose expected extension `ext` is, if any. */
  function FormatFor(ext: string): Option<ExportFormat> {
    if ext == "html" then Some(Html)
    else if ext == "json" then Some(ExportFormat.Json)
    else if ext == "csv" then Some(Csv)
    else if ext == "graphml" then Some(GraphML)
    else if ext == "dot" then Some(Dot)
    else None
  }

  /** Each format owns its extension: no two formats expect the same one. */
  lemma FormatForExpected(f: ExportFormat, ext: string)
    ensures FormatFor(ext) == Some(f) <==> ext == ExpectedExtension(f)
  {
  }

  // ---------------------------------------------------------------------------
  // Paths

  /** The path without its trailing separators and without the trailing
      `.` components that `Path::components` skips (every `.` but a leading
      one). */
  function DropTrailingCurDirs(p: string): (q: string)
    ensures q == [] || q[|q| - 1] != '/'
    ensures |q| >= 2 ==> q[|q| - 2..] != "/."
    decreases |p|
  {
    if p != [] && p[|p| - 1] == '/' then DropTrailingCurDirs(p[..|p| - 1])
    else if |p| >= 2 && p[|p| - 2] == '/' && p[|p| - 1] == '.' then DropTrailingCurDirs(p[..|p| - 1])
    else p
  }

  /** `Path::file_name`: the last component that `Path::components` yields,
      unless that is empty (the root or nothing), a leading `.` or `..`. */
  function FileName(path: string): (name: Option<string>)
    ensures name.Some? ==> name.value != [] && '/' !in name.value
  {
    LastName(DropTrailingCurDirs(path))
  }

  /** The text after the last separator, unless it is empty, `.` or `..`. */
  function LastName(p: string): (name: Option<string>)
    ensures name.Some? ==> name.value != [] && '/' !in name.value
  {
    var last := match RFindChar(p, '/') case None => p case Some(i) => p[i + 1..];
    if last == [] || last == "." || last == ".." then None else Some(last)
  }

  /** A trailing separator or a trailing `/.` does not change the file
      name: `a.txt/.` names `a.txt`, as `Path::file_name` says. */
  lemma FileNameIgnoresTrailingCurDir(path: string)
    ensures FileName(path + "/") == FileName(path)
    ensures FileName(path + "/.") == FileName(path)
  {
    DropTrailingCurDir(path);
  }

  lemma DropTrailingCurDir(path: string)
    ensures DropTrailingCurDirs(path + "/") == DropTrailingCurDirs(path)
    ensures DropTrailingCurDirs(path + "/.") == DropTrailingCurDirs(path)
  {
    var slash, dot := path + "/", path + "/.";
    assert slash[|slash| - 1] == '/' && slash[..|slash| - 1] == path;
    assert dot[|dot| - 2] == '/' && dot[|dot| - 1] == '.' && dot[..|dot| - 1] == slash;
  }

  /** `Path::extension` of a file name: what follows its last `.`, unless
      that `.` is its first character. */
  function Extension(name: string): (ext: Option<string>)
    ensures ext.Some? ==> '.' !in ext.value
  {
    match RFindChar(name, '.')
    case None => None
    case Some(i) => if i > 0 then Some(name[i + 1..]) else None
  }

  /** `Path::file_stem` of a file name. */
  function Stem(name: string): string {
    match RFindChar(name, '.')
    case None => name
    case Some(i) => if i > 0 then name[..i] else name
  }

  /** A file name with an extension is its stem, a `.` and the extension;
      one without is its own stem. */
  lemma NameSplits(name: string)
    ensures Extension(name).Some? ==> name == Stem(name) + "." + Extension(name).value && Stem(name) != []
    ensures Extension(name).None? ==> Stem(name) == name
  {
    match RFindChar(name, '.')
    case None =>
    case Some(i) =>
      if i > 0 {
        assert name == name[..i] + "." + name[i + 1..];
      }
  }

  /** The extension of a path, read from its file name. */
  function PathExtension(path: string): Option<string> {
    match FileName(path)
    case None => None
    case Some(name) => Extension(name)
  }

  /** The extension part of `validate_export_path` (its check that the
      parent directory exists is file-system I/O). */
  function ValidateExtension(path: string, f: ExportFormat): Result<()> {
    match PathExtension(path)
    case None => Ok(())
    case Some(ext) =>
      if Lower(ext) != ExpectedExtension(f) then
        Err(Export("File extension should be ." + ExpectedExtension(f) + " for " + FormatDebug(f) + " format"))
      else Ok(())
  }

  /** A path passes for a format iff it has no extension or its lowercased
      extension is the one that format owns; so a path with an extension
      passes for at most one format. */
  lemma ValidateExtensionFormats(path: string, f: ExportFormat, g: ExportFormat)
    ensures ValidateExtension(path, f).Ok? <==>
      PathExtension(path).None? || FormatFor(Lower(PathExtension(path).value)) == Some(f)
    ensures PathExtension(path).Some? && ValidateExtension(path, f).Ok? && ValidateExtension(path, g).Ok? ==> f == g
    ensures ValidateExtension(path, f).Err? ==>
      ValidateExtension(path, f).error ==
        Export("File extension should be ." + ExpectedExtension(f) + " for " + FormatDebug(f) + " format")
  {
    match PathExtension(path)
    case None =>
    case Some(ext) =>
      FormatForExpected(f, Lower(ext));
      FormatForExpected(g, Lower(ext));
  }

  // ---------------------------------------------------------------------------
  // The serialized output name

  const NetworksDir := "0_networks"

  /** A requested file name taken apart. */
  datatype NameParts = NameParts(name: string, stem: string, ext: string)

  /** The first part of `create_output_path`: the requested file name, its
      stem and its extension, or the error it reports.  (Its "Invalid file
      stem" error cannot occur: a path with a file name has a stem.) */
  function OutputParts(requested: string): Result<NameParts> {
    match FileName(requested)
    case None => Err(Export("Invalid filename"))
    case Some(name) =>
      match Extension(name)
      case None => Err(Export("Invalid file extension"))
      case Some(ext) => Ok(NameParts(name, Stem(name), ext))
  }

  predicate Splits(p: NameParts) {
    p.name == p.stem + "." + p.ext
  }

  lemma OutputPartsSplit(requested: string)
    ensures OutputParts(requested).Ok? ==> Splits(OutputParts(requested).value)
  {
    if FileName(requested).Some? {
      NameSplits(FileName(requested).value);
    }
  }

  /** The name tried after `counter` names were taken: the requested file
      name first, then `<stem>_NN.<ext>` with the counter padded to two
      digits, all under `0_networks/`. */
  function Candidate(p: NameParts, counter: nat): string {
    if counter == 0 then NetworksDir + "/" + p.name
    else NetworksDir + "/" + p.stem + "_" + ZeroPad2(counter) + "." + p.ext
  }

  lemma DigitsBeforeDot(a: string, x: string, b: string, y: string)
    requires forall i :: 0 <= i < |a| ==> IsDigit(a[i])
    requires forall i :: 0 <= i < |b| ==> IsDigit(b[i])
    requires a + "." + x == b + "." + y
    ensures a == b
  {
    var m := if |a| <= |b| then |a| else |b|;
    var t := a + "." + x;
    assert t[m] == (b + "." + y)[m];
    assert |a| == |b|;
    assert a == t[..|a|];
  }

  /** Different counters give different names. */
  lemma CandidatesDistinct(p: NameParts, j: nat, k: nat)
    requires Splits(p)
    requires Candidate(p, j) == Candidate(p, k)
    ensures j == k
  {
    var prefix := NetworksDir + "/" + p.stem;
    if j > 0 && k > 0 {
      var tj, tk := ZeroPad2(j) + "." + p.ext, ZeroPad2(k) + "." + p.ext;
      assert Candidate(p, j) == (prefix + "_") + tj;
      assert Candidate(p, k) == (prefix + "_") + tk;
      assert tj == Candidate(p, j)[|prefix + "_"|..];
      DigitsBeforeDot(ZeroPad2(j), p.ext, ZeroPad2(k), p.ext);
      ZeroPad2Injective(j, k);
    }
  }

  /** The first `k` names are `k` different names. */
  lemma {:induction false} CandidateCount(p: NameParts, k: nat)
    requires Splits(p)
    ensures |set j | 0 <= j < k :: Candidate(p, j)| == k
  {
    if k > 0 {
      CandidateCount(p, k - 1);
      var before := set j | 0 <= j < k - 1 :: Candidate(p, j);
      assert (set j | 0 <= j < k :: Candidate(p, j)) == before + {Candidate(p, k - 1)};
      if Candidate(p, k - 1) in before {
        var j :| 0 <= j < k - 1 && Candidate(p, j) == Candidate(p, k - 1);
        CandidatesDistinct(p, j, k - 1);
      }
    }
  }

  /** The search cannot go on for ever: after `k` taken names there are at
      least `k` existing files. */
  lemma SearchBound(p: NameParts, existing: set<string>, k: nat)
    requires Splits(p)
    requires forall j :: 0 <= j < k ==> Candidate(p, j) in existing
    ensures k <= |existing|
  {
    CandidateCount(p, k);
    SubsetSize(set j | 0 <= j < k :: Candidate(p, j), existing);
  }

  lemma {:induction false} SubsetSize<T>(a: set<T>, b: set<T>)
    requires a <= b
    ensures |a| <= |b|
    decreases a
  {
    if a != {} {
      var x :| x in a;
      SubsetSize(a - {x}, b - {x});
    }
  }

  /** `create_output_path`, with the files under `0_networks/` given as the
      set of their paths: the first name in the sequence not taken, or the
      error for a path without a file name or an extension. */
  method CreateOutputPath(requested: string, existing: set<string>) returns (r: Result<string>)
    ensures r.Err? <==> OutputParts(requested).Err?
    ensures r.Err? ==> r.error == OutputParts(requested).error
    ensures r.Ok? ==> r.value !in existing
    ensures r.Ok? ==>
      exists k: nat :: (r.value == Candidate(OutputParts(requested).value, k) &&
                   forall j :: 0 <= j < k ==> Candidate(OutputParts(requested).value, j) in existing)
  {
    var name := FileName(requested);
    if name.None? {
      assert OutputParts(requested) == Err(Export("Invalid filename"));
      return Err(Export("Invalid filename"));
    }
    var ext := Extension(name.value);
    if ext.None? {
      assert OutputParts(requested) == Err(Export("Invalid file extension"));
      return Err(Export("Invalid file extension"));
    }
    var parts := NameParts(name.value, Stem(name.value), ext.value);
    assert OutputParts(requested) == Ok(parts);
    OutputPartsSplit(requested);
    var outputPath := FirstFree(parts, existing);
    return Ok(outputPath);
  }

  /** The counting loop of `create_output_path`: the first candidate name
      not among the existing files. */
  method FirstFree(parts: NameParts, existing: set<string>) returns (outputPath: string)
    requires Splits(parts)
    ensures outputPath !in existing
    ensures exists k: nat :: (outputPath == Candidate(parts, k) &&
                         forall j :: 0 <= j < k ==> Candidate(parts, j) in existing)
  {
    var counter := 0;
    outputPath := NetworksDir + "/" + parts.name;
    while outputPath in existing
      invariant outputPath == Candidate(parts, counter)
      invariant forall j :: 0 <= j < counter ==> Candidate(parts, j) in existing
      decreases |existing| - counter
    {
      SearchBound(parts, existing, counter + 1);
      counter := counter + 1;
      outputPath := NetworksDir + "/" + parts.stem + "_" + ZeroPad2(counter) + "." + parts.ext;
    }
  }

  /** Only one name is the first free one. */
  lemma FirstFreeUnique(p: NameParts, existing: set<string>, k1: nat, k2: nat)
    requires Candidate(p, k1) !in existing && forall j :: 0 <= j < k1 ==> Candidate(p, j) in existing
    requires Candidate(p, k2) !in existing && forall j :: 0 <= j < k2 ==> Candidate(p, j) in existing
    ensures k1 == k2
  {
  }

  /** A path without an extension passes `validate_export_path` and is then
      refused by `create_output_path`. */
  lemma NoExtensionPassesThenFails(path: string, f: ExportFormat)
    requires FileName(path).Some? && PathExtension(path).None?
    ensures ValidateExtension(path, f).Ok?
    ensures OutputParts(path) == Err(Export("Invalid file extension"))
  {
  }

  // ---------------------------------------------------------------------------
  // What the CSV, GraphML and DOT writers print

  /** `{:?}` of a node type. */
  function NodeTypeDebug(t: NodeType): string {
    match t
    case EntityNode => "Entity"
    case ConceptNode => "Concept"
    case AttributeNode => "Attribute"
    case RelationshipNode => "Relationship"
  }

  /** `{:?}` of an edge type. */
  function EdgeTypeDebug(t: EdgeType): string {
    match t
    case EntityRelationship => "EntityRelationship"
    case EntityAttribute => "EntityAttribute"
    case ConceptEntity => "ConceptEntity"
    case ConceptConcept => "ConceptConcept"
    case Hierarchy => "Hierarchy"
  }

  /** The DOT shape a node type is drawn with. */
  function DotShape(t: NodeType): string {
    match t
    case EntityNode => "ellipse"
    case ConceptNode => "circle"
    case AttributeNode => "box"
    case RelationshipNode => "diamond"
  }

  /** How an `f64` is printed: with `{}`, and with `{:.2}`. */
  datatype Formatter = Formatter(display: real -> string, fixed2: real -> string)

  /** The three writers that build their text line by line. */
  datatype Style = CsvStyle | GraphMLStyle | DotStyle

  /** A label as a CSV row holds it: every comma turned into a semicolon. */
  function CsvLabel(s: string): string {
    ReplaceChar(s, ',', ";")
  }

  /** The sanitised label holds no comma, and differs from the label only
      where the label had one. */
  lemma CsvLabelSanitised(s: string)
    ensures ',' !in CsvLabel(s)
    ensures |CsvLabel(s)| == |s|
    ensures forall i :: 0 <= i < |s| ==> CsvLabel(s)[i] == if s[i] == ',' then ';' else s[i]
    ensures ',' !in s ==> CsvLabel(s) == s
  {
    ReplaceCharLength(s, ',', ";");
  }

  /** A CSV row: the fields, comma separated, and a newline. */
  function CsvRow(fields: seq<string>): string {
    Join(fields, ",") + "\n"
  }

  const CsvNodeColumns: seq<string> := ["id", "label", "type", "color", "shape", "size", "confidence"]
  const CsvEdgeColumns: seq<string> := ["id", "from", "to", "label", "type", "color", "width", "confidence"]

  function CsvNodeFields(n: GraphNode, fmt: Formatter): seq<string> {
    [n.id, CsvLabel(n.labelText), NodeTypeDebug(n.nodeType), n.color, n.shape,
     fmt.display(n.size), fmt.display(n.metadata.confidence)]
  }

  function CsvEdgeFields(e: GraphEdge, fmt: Formatter): seq<string> {
    [e.id, e.from, e.to, CsvLabel(e.labelText), EdgeTypeDebug(e.edgeType), e.color,
     fmt.display(e.width), fmt.display(e.metadata.confidence)]
  }

  const GraphMLHeader :=
    "<?xml version=\"1.0\" encoding=\"UTF-8\"?>\n"
    + "<graphml xmlns=\"http://graphml.graphdrawing.org/xmlns\"\n"
    + "         xmlns:xsi=\"http://www.w3.org/2001/XMLSchema-instance\"\n"
    + "         xsi:schemaLocation=\"http://graphml.graphdrawing.org/xmlns \n"
    + "         http://graphml.graphdrawing.org/xmlns/1.0/graphml.xsd\">\n\n"

  const GraphMLKeys :=
    "  <key id=\"d0\" for=\"node\" attr.name=\"label\" attr.type=\"string\"/>\n"
    + "  <key id=\"d1\" for=\"node\" attr.name=\"type\" attr.type=\"string\"/>\n"
    + "  <key id=\"d2\" for=\"node\" attr.name=\"confidence\" attr.type=\"double\"/>\n"
    + "  <key id=\"d3\" for=\"edge\" attr.name=\"label\" attr.type=\"string\"/>\n"
    + "  <key id=\"d4\" for=\"edge\" attr.name=\"type\" attr.type=\"string\"/>\n"
    + "  <key id=\"d5\" for=\"edge\" attr.name=\"confidence\" attr.type=\"double\"/>\n\n"

  const GraphMLNodeOpen := "    <node id=\""
  const GraphMLLabelOpen := "\">\n      <data key=\"d0\">"
  const GraphMLEdgeOpen := "    <edge id=\""

  /** Everything a writer prints before its first node line. */
  function Opening(style: Style): string {
    match style
    case CsvStyle => "# NODES\n" + CsvRow(CsvNodeColumns)
    case GraphMLStyle => GraphMLHeader + GraphMLKeys + "  <graph id=\"G\" edgedefault=\"directed\">\n"
    case DotStyle =>
      "digraph EntityRelationshipGraph {\n" + "  rankdir=TB;\n"
      + "  node [shape=ellipse, style=filled];\n" + "  edge [fontsize=10];\n\n"
  }

  /** What a writer prints between its node lines and its edge lines. */
  function Middle(style: Style): string {
    match style
    case CsvStyle => "\n# EDGES\n" + CsvRow(CsvEdgeColumns)
    case GraphMLStyle => ""
    case DotStyle => "\n"
  }

  /** What a writer prints after its last edge line. */
  function Closing(style: Style): string {
    match style
    case CsvStyle => ""
    case GraphMLStyle => "  </graph>\n" + "</graphml>\n"
    case DotStyle => "}\n"
  }

  /** A writer: which of the three, and how it prints numbers. */
  datatype Writer = Writer(style: Style, fmt: Formatter)

  /** The text a writer prints for one node. */
  function NodeLine(w: Writer, n: GraphNode): string {
    match w.style
    case CsvStyle => CsvRow(CsvNodeFields(n, w.fmt))
    case GraphMLStyle => GraphMLNodeOpen + EscapeXml(n.id) + GraphMLLabelOpen + EscapeXml(n.labelText) + GraphMLNodeTail(n, w.fmt)
    case DotStyle =>
      "  \"" + EscapeDot(n.id) + "\" [label=\"" + EscapeDot(n.labelText) + "\", shape=" + DotShape(n.nodeType)
      + ", fillcolor=\"" + n.color + "\", tooltip=\"Confidence: " + w.fmt.fixed2(n.metadata.confidence) + "\"];\n"
  }

  /** What a GraphML node element holds after its label. */
  function GraphMLNodeTail(n: GraphNode, fmt: Formatter): string {
    "</data>\n"
    + "      <data key=\"d1\">" + NodeTypeDebug(n.nodeType) + "</data>\n"
    + "      <data key=\"d2\">" + fmt.display(n.metadata.confidence) + "</data>\n"
    + "    </node>\n"
  }

  /** The text a writer prints for one edge (the DOT writer leaves out the
      edge id). */
  function EdgeLine(w: Writer, e: GraphEdge): string {
    match w.style
    case CsvStyle => CsvRow(CsvEdgeFields(e, w.fmt))
    case GraphMLStyle => GraphMLEdgeOpen + EscapeXml(e.id) + GraphMLEdgeTail(e, w.fmt)
    case DotStyle =>
      "  \"" + EscapeDot(e.from) + "\" -> \"" + EscapeDot(e.to) + "\" [label=\"" + EscapeDot(e.labelText)
      + "\", color=\"" + e.color + "\", penwidth=" + w.fmt.display(e.width)
      + ", tooltip=\"Confidence: " + w.fmt.fixed2(e.metadata.confidence) + "\"];\n"
  }

  /** What a GraphML edge element holds after its id. */
  function GraphMLEdgeTail(e: GraphEdge, fmt: Formatter): string {
    "\" source=\"" + EscapeXml(e.from) + "\" target=\"" + EscapeXml(e.to) + "\">\n"
    + "      <data key=\"d3\">" + EscapeXml(e.labelText) + "</data>\n"
    + "      <data key=\"d4\">" + EdgeTypeDebug(e.edgeType) + "</data>\n"
    + "      <data key=\"d5\">" + fmt.display(e.metadata.confidence) + "</data>\n"
    + "    </edge>\n"
  }

  /** The lines a writer prints for a sequence of items, in order. */
  function Lines<T>(w: Writer, items: seq<T>, line: (Writer, T) -> string): string {
    if items == [] then []
    else Lines(w, items[..|items| - 1], line) + line(w, items[|items| - 1])
  }

  /** The whole text of a CSV, GraphML or DOT export. */
  function Content(w: Writer, nodes: seq<GraphNode>, edges: seq<GraphEdge>): string {
    Opening(w.style) + Lines(w, nodes, NodeLine) + Middle(w.style) + Lines(w, edges, EdgeLine) + Closing(w.style)
  }

  /** One `for` loop of a writer: push the line of each item in turn. */
  method WriteLines<T>(w: Writer, text0: string, items: seq<T>, line: (Writer, T) -> string) returns (text: string)
    ensures text == text0 + Lines(w, items, line)
  {
    text := text0;
    for i := 0 to |items|
      invariant text == text0 + Lines(w, items[..i], line)
    {
      assert items[..i + 1][..i] == items[..i];
      text := text + line(w, items[i]);
    }
    assert items[..|items|] == items;
  }

  /** The body of `export_to_csv`, `export_to_graphml` or `export_to_dot`
      that builds the text: the opening, one line per node, the middle, one
      line per edge and the closing, each pushed in turn. */
  method Render(w: Writer, nodes: seq<GraphNode>, edges: seq<GraphEdge>) returns (content: string)
    ensures content == Content(w, nodes, edges)
  {
    content := Opening(w.style);
    content := WriteLines(w, content, nodes, NodeLine);
    content := content + Middle(w.style);
    content := WriteLines(w, content, edges, EdgeLine);
    content := content + Closing(w.style);
  }

  lemma {:induction false} LinesAppend<T>(w: Writer, a: seq<T>, b: seq<T>, line: (Writer, T) -> string)
    ensures Lines(w, a + b, line) == Lines(w, a, line) + Lines(w, b, line)
    decreases |b|
  {
    if b == [] {
      assert a + b == a;
    } else {
      assert (a + b)[..|a + b| - 1] == a + b[..|b| - 1];
      LinesAppend(w, a, b[..|b| - 1], line);
    }
  }

  /** The lines of the items are the lines before item `k`, its own line,
      and the lines after it. */
  lemma LinesAround<T>(w: Writer, items: seq<T>, line: (Writer, T) -> string, k: nat)
    requires k < |items|
    ensures Lines(w, items, line) == Lines(w, items[..k], line) + line(w, items[k]) + Lines(w, items[k + 1..], line)
  {
    assert items == items[..k + 1] + items[k + 1..];
    LinesAppend(w, items[..k + 1], items[k + 1..], line);
    assert items[..k + 1][..k] == items[..k];
  }

  lemma OccursBetween(x: string, l: string, y: string)
    ensures OccursAt(x + l + y, l, |x|)
  {
    assert (x + l + y)[|x|..|x| + |l|] == l;
  }

  lemma Regroup(o: string, b1: string, l: string, b2: string, m: string, e: string, c: string)
    ensures o + (b1 + l + b2) + m + e + c == (o + b1) + l + (b2 + m + e + c)
    ensures o + m + (b1 + l + b2) + c == (o + m + b1) + l + (b2 + c)
  {
  }

  /** Every node is written, in order: the line of node `k` follows the
      opening and the lines of the nodes before it. */
  lemma NodeWritten(w: Writer, nodes: seq<GraphNode>, edges: seq<GraphEdge>, k: nat)
    requires k < |nodes|
    ensures OccursAt(Content(w, nodes, edges), NodeLine(w, nodes[k]), |Opening(w.style)| + |Lines(w, nodes[..k], NodeLine)|)
  {
    LinesAround(w, nodes, NodeLine, k);
    var o, b1, l, b2 := Opening(w.style), Lines(w, nodes[..k], NodeLine), NodeLine(w, nodes[k]), Lines(w, nodes[k + 1..], NodeLine);
    Regroup(o, b1, l, b2, Middle(w.style), Lines(w, edges, EdgeLine), Closing(w.style));
    OccursBetween(o + b1, l, b2 + Middle(w.style) + Lines(w, edges, EdgeLine) + Closing(w.style));
  }

  /** Every edge is written, in order, after all the node lines. */
  lemma EdgeWritten(w: Writer, nodes: seq<GraphNode>, edges: seq<GraphEdge>, k: nat)
    requires k < |edges|
    ensures OccursAt(Content(w, nodes, edges), EdgeLine(w, edges[k]),
                     |Opening(w.style) + Lines(w, nodes, NodeLine) + Middle(w.style)| + |Lines(w, edges[..k], EdgeLine)|)
  {
    LinesAround(w, edges, EdgeLine, k);
    var o, b1, l, b2 := Opening(w.style) + Lines(w, nodes, NodeLine), Lines(w, edges[..k], EdgeLine), EdgeLine(w, edges[k]), Lines(w, edges[k + 1..], EdgeLine);
    Regroup(o, b1, l, b2, Middle(w.style), [], Closing(w.style));
    OccursBetween(o + Middle(w.style) + b1, l, b2 + Closing(w.style));
  }

  lemma NodeTypeDebugPlain(t: NodeType)
    ensures ',' !in NodeTypeDebug(t)
  {
    match t
    case EntityNode =>
    case ConceptNode =>
    case AttributeNode =>
    case RelationshipNode =>
  }

  lemma EdgeTypeDebugPlain(t: EdgeType)
    ensures ',' !in EdgeTypeDebug(t)
  {
    match t
    case EntityRelationship =>
    case EntityAttribute =>
    case ConceptEntity =>
    case ConceptConcept =>
    case Hierarchy =>
  }

  /** A CSV node row splits back into the seven columns of the node header,
      the label among them with its commas sanitised, as long as the fields
      printed unsanitised hold no comma. */
  lemma CsvNodeRowColumns(n: GraphNode, fmt: Formatter)
    requires ',' !in n.id && ',' !in n.color && ',' !in n.shape
    requires ',' !in fmt.display(n.size) && ',' !in fmt.display(n.metadata.confidence)
    ensures var row := NodeLine(Writer(CsvStyle, fmt), n);
      row[|row| - 1] == '\n' &&
      SplitOn(row[..|row| - 1], ',') == CsvNodeFields(n, fmt) &&
      |CsvNodeFields(n, fmt)| == |CsvNodeColumns| &&
      CsvNodeFields(n, fmt)[1] == CsvLabel(n.labelText)
  {
    var fields := CsvNodeFields(n, fmt);
    CsvLabelSanitised(n.labelText);
    NodeTypeDebugPlain(n.nodeType);
    SplitJoin(fields, ',');
    assert CsvRow(fields)[..|CsvRow(fields)| - 1] == Join(fields, ",");
  }

  /** A CSV edge row splits back into the eight columns of the edge header
      under the same condition. */
  lemma CsvEdgeRowColumns(e: GraphEdge, fmt: Formatter)
    requires ',' !in e.id && ',' !in e.from && ',' !in e.to && ',' !in e.color
    requires ',' !in fmt.display(e.width) && ',' !in fmt.display(e.metadata.confidence)
    ensures var row := EdgeLine(Writer(CsvStyle, fmt), e);
      row[|row| - 1] == '\n' &&
      SplitOn(row[..|row| - 1], ',') == CsvEdgeFields(e, fmt) &&
      |CsvEdgeFields(e, fmt)| == |CsvEdgeColumns| &&
      CsvEdgeFields(e, fmt)[3] == CsvLabel(e.labelText)
  {
    var fields := CsvEdgeFields(e, fmt);
    CsvLabelSanitised(e.labelText);
    EdgeTypeDebugPlain(e.edgeType);
    SplitJoin(fields, ',');
    assert CsvRow(fields)[..|CsvRow(fields)| - 1] == Join(fields, ",");
  }

  /** An escaped XML value ends at the first `"` or `<` after it, and
      unescaping what precedes that character gives the value back. */
  lemma EscapedValueRecovered(s: string, c: char, rest: string)
    requires c == '"' || c == '<'
    ensures UpTo(EscapeXml(s) + [c] + rest, c) == EscapeXml(s)
    ensures UnescapeXml(UpTo(EscapeXml(s) + [c] + rest, c)) == s
  {
    EscapeXmlSafe(s);
    FindCharAfter(EscapeXml(s), c, rest);
    assert (EscapeXml(s) + [c] + rest)[..|EscapeXml(s)|] == EscapeXml(s);
    EscapeXmlRoundTrip(s);
  }

  /** A GraphML node element gives back the node's id and label: each is
      read up to the character that closes it and unescaped. */
  lemma GraphMLNodeFields(n: GraphNode, fmt: Formatter)
    ensures var line := NodeLine(Writer(GraphMLStyle, fmt), n);
      UnescapeXml(UpTo(line[|GraphMLNodeOpen|..], '"')) == n.id &&
      UnescapeXml(UpTo(line[|GraphMLNodeOpen| + |EscapeXml(n.id)| + |GraphMLLabelOpen|..], '<')) == n.labelText
  {
    GraphMLNodeId(n, fmt);
    GraphMLNodeLabel(n, fmt);
  }

  lemma GraphMLNodeId(n: GraphNode, fmt: Formatter)
    ensures UnescapeXml(UpTo(NodeLine(Writer(GraphMLStyle, fmt), n)[|GraphMLNodeOpen|..], '"')) == n.id
  {
    var open, id, mid, lbl, tail := GraphMLNodeOpen, EscapeXml(n.id), GraphMLLabelOpen, EscapeXml(n.labelText), GraphMLNodeTail(n, fmt);
    assert mid[0] == '"';
    Regroup3(open + id, mid, lbl, tail);
    AfterPrefix(open, id, mid + lbl + tail);
    EscapedValueRecovered(n.id, '"', (mid + lbl + tail)[1..]);
  }

  lemma GraphMLNodeLabel(n: GraphNode, fmt: Formatter)
    ensures UnescapeXml(UpTo(NodeLine(Writer(GraphMLStyle, fmt), n)[|GraphMLNodeOpen| + |EscapeXml(n.id)| + |GraphMLLabelOpen|..], '<')) ==
      n.labelText
  {
    var open, id, mid, lbl, tail := GraphMLNodeOpen, EscapeXml(n.id), GraphMLLabelOpen, EscapeXml(n.labelText), GraphMLNodeTail(n, fmt);
    assert tail[0] == '<';
    AfterPrefix(open + id + mid, lbl, tail);
    EscapedValueRecovered(n.labelText, '<', tail[1..]);
  }

  lemma Regroup3(a: string, b: string, c: string, d: string)
    ensures a + b + c + d == a + (b + c + d)
  {
  }

  lemma AfterPrefix(a: string, v: string, tail: string)
    requires tail != []
    ensures (a + v + tail)[|a|..] == v + [tail[0]] + tail[1..]
  {
    assert tail == [tail[0]] + tail[1..];
  }

  /** A GraphML edge element gives back the edge's id. */
  lemma GraphMLEdgeId(e: GraphEdge, fmt: Formatter)
    ensures UnescapeXml(UpTo(EdgeLine(Writer(GraphMLStyle, fmt), e)[|GraphMLEdgeOpen|..], '"')) == e.id
  {
    var tail := GraphMLEdgeTail(e, fmt);
    assert tail[0] == '"';
    AfterPrefix(GraphMLEdgeOpen, EscapeXml(e.id), tail);
    EscapedValueRecovered(e.id, '"', tail[1..]);
  }

  // ---------------------------------------------------------------------------
  // The HTML and JSON contents

  /** The fixed text of the script `export_to_html` embeds, around the four
      values it formats into it. */
  datatype ScriptFrame = ScriptFrame(beforeNodes: string, beforeEdges: string, beforeConfig: string,
                                     beforeContainer: string, after: string)

  /** What the exporter takes from code outside this model: the page of the
      web interface and its container id, the frame of the embedded script,
      `serde_json` (its `Err` is the `Json` error the exporter passes on),
      and the printing of numbers. */
  datatype Foreign = Foreign(
    htmlTemplate: string,
    containerId: string,
    script: ScriptFrame,
    nodesJson: seq<GraphNode> -> Result<string>,
    edgesJson: seq<GraphEdge> -> Result<string>,
    configJson: GraphConfig -> Result<string>,
    graphJson: (seq<GraphNode>, seq<GraphEdge>, GraphConfig, GraphMetadata) -> Result<string>,
    listsJson: (seq<GraphNode>, seq<GraphEdge>, bool) -> Result<string>,
    fmt: Formatter)

  function EmbeddedScript(f: ScriptFrame, nodes: string, edges: string, config: string, container: string): string {
    f.beforeNodes + nodes + f.beforeEdges + edges + f.beforeConfig + config + f.beforeContainer + container + f.after
  }

  const BodyClose := "</body>"

  /** The page with the script put in front of every closing body tag. */
  function EmbedScript(page: string, script: string): string {
    ReplaceStr(page, BodyClose, script + "\n" + BodyClose)
  }

  /** On a page without a closing body tag the script is dropped. */
  lemma EmbedWithoutBody(page: string, script: string)
    requires forall i :: 0 <= i < |page| ==> !OccursAt(page, BodyClose, i)
    ensures EmbedScript(page, script) == page
  {
    ReplaceStrAbsent(page, BodyClose, script + "\n" + BodyClose);
  }

  /** The page is kept up to its first closing body tag, and the script
      goes right before that tag. */
  lemma EmbedBeforeBody(pre: string, post: string, script: string)
    requires forall i :: 0 <= i < |pre| ==> !OccursAt(pre + BodyClose + post, BodyClose, i)
    ensures EmbedScript(pre + BodyClose + post, script) == pre + script + "\n" + BodyClose + EmbedScript(post, script)
  {
    ReplaceStrFirst(pre, BodyClose, post, script + "\n" + BodyClose);
  }

  /** `export_to_html`'s text, or the first serialisation error. */
  function HtmlContent(nodes: seq<GraphNode>, edges: seq<GraphEdge>, config: GraphConfig, x: Foreign): Result<string> {
    match x.nodesJson(nodes)
    case Err(e) => Err(e)
    case Ok(n) =>
      match x.edgesJson(edges)
      case Err(e) => Err(e)
      case Ok(ed) =>
        match x.configJson(config)
        case Err(e) => Err(e)
        case Ok(c) => Ok(EmbedScript(x.htmlTemplate, EmbeddedScript(x.script, n, ed, c, x.containerId)))
  }

  /** `export_to_json`'s text: the whole graph pretty-printed when metadata
      is asked for (compact or not), else just its nodes and edges, pretty
      unless the output is compact. */
  function JsonContent(nodes: seq<GraphNode>, edges: seq<GraphEdge>, config: GraphConfig, metadata: GraphMetadata,
                       options: ExportOptions, x: Foreign): Result<string> {
    if options.includeMetadata then x.graphJson(nodes, edges, config, metadata)
    else x.listsJson(nodes, edges, !options.compactOutput)
  }

  // ---------------------------------------------------------------------------
  // Exporting

  datatype ExportOptions = ExportOptions(
    format: ExportFormat,
    includeMetadata: bool,
    includeStyling: bool,
    compactOutput: bool,
    filePath: Option<string>)

  datatype ExportMetadata = ExportMetadata(
    exportTimestamp: string,
    originalGraphNodes: nat,
    originalGraphEdges: nat,
    exportedFormat: string,
    fileSizeBytes: Option<nat>)

  datatype ExportResult = ExportResult(
    success: bool,
    filePath: Option<string>,
    content: Option<string>,
    errorMessage: Option<string>,
    metadata: ExportMetadata)

  /** What the file system does for an export: the paths already under
      `0_networks/`, and the error, if any, of creating that directory and
      of writing the file. */
  datatype FileSystem = FileSystem(existing: set<string>, createDirError: Option<string>, writeError: Option<string>)

  /** The path an export asks for: the one in the options, or `graph.` and
      the format's extension. */
  function RequestedPath(options: ExportOptions): string {
    match options.filePath
    case Some(p) => p
    case None => "graph." + ExpectedExtension(options.format)
  }

  /** The error `create_output_path` reports, if any. */
  function OutputPathError(requested: string, fs: FileSystem): Option<GraphError> {
    match OutputParts(requested)
    case Err(e) => Some(e)
    case Ok(_) =>
      match fs.createDirError
      case Some(e) => Some(Export("Failed to create directory: " + e))
      case None => None
  }

  function WriterFor(f: ExportFormat, fmt: Formatter): Writer
    requires f == Csv || f == GraphML || f == Dot
  {
    Writer(if f == Csv then CsvStyle else if f == GraphML then GraphMLStyle else DotStyle, fmt)
  }

  /** The text an export writes for a graph, or the error that stops it. */
  function ExportContent(graph: InteractiveGraph, options: ExportOptions, x: Foreign): Result<string>
    reads graph
  {
    match options.format
    case Html => HtmlContent(graph.nodes, graph.edges, graph.config, x)
    case Json => JsonContent(graph.nodes, graph.edges, graph.config, graph.metadata, options, x)
    case _ => Ok(Content(WriterFor(options.format, x.fmt), graph.nodes, graph.edges))
  }

  /** The error an export stops with, if any: the output path first, then
      the serialisation, then the write. */
  function ExportError(graph: InteractiveGraph, options: ExportOptions, fs: FileSystem, x: Foreign): Option<GraphError>
    reads graph
  {
    if OutputPathError(RequestedPath(options), fs).Some? then OutputPathError(RequestedPath(options), fs)
    else if ExportContent(graph, options, x).Err? then Some(ExportContent(graph, options, x).error)
    else if fs.writeError.Some? then
      Some(Export("Failed to write " + FormatName(options.format) + " file: " + fs.writeError.value))
    else None
  }

  /** `create_output_path` with the creation of `0_networks/`. */
  method OutputPath(requested: string, fs: FileSystem) returns (r: Result<string>)
    ensures r.Err? <==> OutputPathError(requested, fs).Some?
    ensures r.Err? ==> r.error == OutputPathError(requested, fs).value
    ensures r.Ok? ==> r.value !in fs.existing
    ensures r.Ok? ==>
      exists k: nat :: (r.value == Candidate(OutputParts(requested).value, k) &&
                   forall j :: 0 <= j < k ==> Candidate(OutputParts(requested).value, j) in fs.existing)
  {
    if OutputParts(requested).Ok? && fs.createDirError.Some? {
      return Err(Export("Failed to create directory: " + fs.createDirError.value));
    }
    r := CreateOutputPath(requested, fs.existing);
  }

  /** `export_graph`: dispatch on the format, name the output file, build
      the text and report what was written. */
  method ExportGraph(graph: InteractiveGraph, options: ExportOptions, fs: FileSystem, x: Foreign, timestamp: string)
    returns (r: Result<ExportResult>)
    ensures r.Err? <==> ExportError(graph, options, fs, x).Some?
    ensures r.Err? ==> r.error == ExportError(graph, options, fs, x).value
    ensures r.Ok? ==> r.value.success && r.value.errorMessage.None?
    ensures r.Ok? ==> r.value.filePath.Some? && r.value.filePath.value !in fs.existing
    ensures r.Ok? ==>
      exists k: nat :: (r.value.filePath.value == Candidate(OutputParts(RequestedPath(options)).value, k) &&
                   forall j :: 0 <= j < k ==> Candidate(OutputParts(RequestedPath(options)).value, j) in fs.existing)
    ensures r.Ok? ==>
      r.value.metadata.originalGraphNodes == |graph.nodes| &&
      r.value.metadata.originalGraphEdges == |graph.edges| &&
      r.value.metadata.exportedFormat == FormatName(options.format) &&
      r.value.metadata.exportTimestamp == timestamp
    ensures r.Ok? ==> (r.value.content.None? <==> options.compactOutput)
    ensures r.Ok? ==> r.value.metadata.fileSizeBytes == Some(|ExportContent(graph, options, x).value|)
    ensures r.Ok? && !options.compactOutput ==> r.value.content == Some(ExportContent(graph, options, x).value)
  {
    var requested := if options.filePath.Some? then options.filePath.value else "graph." + ExpectedExtension(options.format);
    var path := OutputPath(requested, fs);
    if path.Err? {
      return Err(path.error);
    }
    var content: string;
    match options.format {
      case Html =>
        var html := HtmlContent(graph.nodes, graph.edges, graph.config, x);
        if html.Err? {
          return Err(html.error);
        }
        content := html.value;
      case Json =>
        var json := JsonContent(graph.nodes, graph.edges, graph.config, graph.metadata, options, x);
        if json.Err? {
          return Err(json.error);
        }
        content := json.value;
      case Csv =>
        content := Render(Writer(CsvStyle, x.fmt), graph.nodes, graph.edges);
      case GraphML =>
        content := Render(Writer(GraphMLStyle, x.fmt), graph.nodes, graph.edges);
      case Dot =>
        content := Render(Writer(DotStyle, x.fmt), graph.nodes, graph.edges);
    }
    var metadata := ExportMetadata(timestamp, |graph.nodes|, |graph.edges|, FormatName(options.format), Some(|content|));
    if fs.writeError.Some? {
      return Err(Export("Failed to write " + FormatName(options.format) + " file: " + fs.writeError.value));
    }
    r := Ok(ExportResult(true, Some(path.value), if options.compactOutput then None else Some(content), None, metadata));
  }

  /** A plain name `<stem>.<ext>` is its own file name, with that stem and
      that extension. */
  lemma PlainNameParts(stem: string, ext: string)
    requires stem != [] && '/' !in stem && '.' !in ext && '/' !in ext && ext != []
    ensures OutputParts(stem + "." + ext) == Ok(NameParts(stem + "." + ext, stem, ext))
  {
    var name := stem + "." + ext;
    assert name == stem + ['.'] + ext;
    assert name[|name| - 1] == ext[|ext| - 1];
    assert DropTrailingCurDirs(name) == name;
    assert '/' !in name;
    assert FileName(name) == Some(name);
    RFindCharAfter(stem, '.', ext);
    assert name[|stem| + 1..] == ext && name[..|stem|] == stem;
  }

  lemma ExpectedExtensionPlain(f: ExportFormat)
    ensures var ext := ExpectedExtension(f); '.' !in ext && '/' !in ext && ext != []
  {
    match f
    case Html =>
    case Json =>
    case Csv =>
    case GraphML =>
    case Dot =>
  }

  /** Without a path in the options the export names its file
      `graph.<ext>` (then `graph_01.<ext>`, ...): naming never fails for
      want of a file name or an extension. */
  lemma DefaultPathNamed(options: ExportOptions, fs: FileSystem)
    requires options.filePath.None?
    ensures OutputParts(RequestedPath(options)) ==
      Ok(NameParts("graph." + ExpectedExtension(options.format), "graph", ExpectedExtension(options.format)))
    ensures OutputPathError(RequestedPath(options), fs).Some? <==> fs.createDirError.Some?
  {
    ExpectedExtensionPlain(options.format);
    assert "graph." == "graph" + ".";
    PlainNameParts("graph", ExpectedExtension(options.format));
  }
}
