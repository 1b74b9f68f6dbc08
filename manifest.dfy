/**
 * The concat list ("manifest") the handlers write before the join step,
 * and the reading of it that ffmpeg's concat demuxer performs.
 *
 * Writing: one `file '<path>'` directive per segment path, joined with
 * "\n" in segment order. src/server.ts escapes each single quote in the
 * path as `'\''` (close quote, backslash-escaped quote, reopen); src/server.js
 * writes the path as it is.
 *
 * Reading (ffmpeg's quoting rules for a directive argument): leading
 * blanks are skipped; outside quotes a `'` opens a quoted run, a backslash
 * takes the next character literally and an unquoted blank ends the
 * argument; inside quotes every character is literal up to the closing `'`.
 * Empty lines are skipped.
 */
module Manifest {
  import opened Wrappers
  import opened Js
  import opened Fs

  /** `f.replace(/'/g, "'\\''")` */
  function EscapeQuotes(p: string): (e: string)
    ensures |e| >= |p|
    ensures '\'' !in p ==> e == p
    decreases |p|
  {
    if |p| == 0 then ""
    else (if p[0] == '\'' then "'\\''" else [p[0]]) + EscapeQuotes(p[1..])
  }

  /** One manifest line: `file '<path>'`, with quotes escaped when `escaped`. */
  function EntryLine(p: Path, escaped: bool): string
  {
    "file '" + (if escaped then EscapeQuotes(p) else p) + "'"
  }

  /** `segmentFiles.map(f => ...)`: one line per path, in order. */
  function Lines(ps: seq<Path>, escaped: bool): (lines: seq<string>)
    ensures |lines| == |ps|
    ensures forall i :: 0 <= i < |ps| ==> lines[i] == EntryLine(ps[i], escaped)
    decreases |ps|
  {
    if |ps| == 0 then [] else [EntryLine(ps[0], escaped)] + Lines(ps[1..], escaped)
  }

  /** `concatText`: the lines joined with "\n". */
  function ListText(ps: seq<Path>, escaped: bool): string
  {
    Join(Lines(ps, escaped), '\n')
  }

  predicate IsBlank(c: char)
  {
    c == ' ' || c == '\t' || c == '\r' || c == '\n'
  }

  function SkipBlanks(t: string): string
    decreases |t|
  {
    if |t| > 0 && IsBlank(t[0]) then SkipBlanks(t[1..]) else t
  }

  /** The argument reader outside quotes. */
  function ReadUnquoted(t: string): string
    decreases |t|
  {
    if |t| == 0 || IsBlank(t[0]) then ""
    else if t[0] == '\'' then ReadQuoted(t[1..])
    else if t[0] == '\\' && |t| >= 2 then [t[1]] + ReadUnquoted(t[2..])
    else [t[0]] + ReadUnquoted(t[1..])
  }

  /** The argument reader inside quotes. */
  function ReadQuoted(t: string): string
    decreases |t|
  {
    if |t| == 0 then ""
    else if t[0] == '\'' then ReadUnquoted(t[1..])
    else [t[0]] + ReadQuoted(t[1..])
  }

  /** A `file` directive and the path it names; `None` for any other line. */
  function ReadFileLine(line: string): Option<Path>
  {
    if |line| >= 5 && line[..5] == "file " then Some(ReadUnquoted(SkipBlanks(line[5..]))) else None
  }

  /** The `file` lines' paths in order, skipping blank lines; `None` when another line is met. */
  function ReadLines(lines: seq<string>): (r: Option<seq<Path>>)
    ensures r.Some? ==> |r.value| <= |lines|
    decreases |lines|
  {
    if |lines| == 0 then Some([])
    else if lines[0] == "" then ReadLines(lines[1..])
    else match ReadFileLine(lines[0])
      case None => None
      case Some(p) =>
        match ReadLines(lines[1..])
        case None => None
        case Some(rest) => Some([p] + rest)
  }

  /** The list of paths the concat demuxer reads from a manifest. */
  function ReadManifest(text: string): (r: Option<seq<Path>>)
    ensures r.Some? ==> |r.value| <= |Split(text, '\n')|
  {
    ReadLines(Split(text, '\n'))
  }

  predicate NoLineBreak(p: Path)
  {
    '\n' !in p
  }

  lemma QuotedStep(c: char, tail: string)
    ensures c != '\'' ==> ReadQuoted([c] + tail) == [c] + ReadQuoted(tail)
    ensures ReadQuoted("'" + tail) == ReadUnquoted(tail)
    ensures ReadUnquoted("'" + tail) == ReadQuoted(tail)
  {
    assert ([c] + tail)[1..] == tail;
    assert ("'" + tail)[1..] == tail;
  }

  /** Inside quotes, the four characters `'\''` stand for one literal quote. */
  lemma QuotedEscapedQuote(tail: string)
    ensures ReadQuoted("'\\''" + tail) == "'" + ReadQuoted(tail)
  {
    var t := "'\\''" + tail;
    assert t[1..] == "\\''" + tail;
    assert t[1..][2..] == "'" + tail;
    QuotedStep('x', tail);
  }

  /** Inside quotes, an escaped path reads back as itself and reading resumes after the closing quote. */
  lemma {:induction false} ReadQuotedEscaped(p: string, rest: string)
    ensures ReadQuoted(EscapeQuotes(p) + "'" + rest) == p + ReadUnquoted(rest)
    decreases |p|
  {
    if |p| == 0 {
      QuotedStep('x', rest);
    } else {
      var tail := EscapeQuotes(p[1..]) + "'" + rest;
      var head := if p[0] == '\'' then "'\\''" else [p[0]];
      calc {
        ReadQuoted(EscapeQuotes(p) + "'" + rest);
        { assert EscapeQuotes(p) + "'" + rest == head + tail; }
        ReadQuoted(head + tail);
        { if p[0] == '\'' { QuotedEscapedQuote(tail); } else { QuotedStep(p[0], tail); } }
        [p[0]] + ReadQuoted(tail);
        { ReadQuotedEscaped(p[1..], rest); }
        [p[0]] + (p[1..] + ReadUnquoted(rest));
        { assert [p[0]] + p[1..] == p; }
        p + ReadUnquoted(rest);
      }
    }
  }

  /** Inside quotes, a path without quotes reads back as itself. */
  lemma {:induction false} ReadQuotedPlain(p: string, rest: string)
    requires '\'' !in p
    ensures ReadQuoted(p + "'" + rest) == p + ReadUnquoted(rest)
    decreases |p|
  {
    if |p| == 0 {
      QuotedStep('x', rest);
    } else {
      var c, tail := p[0], p[1..];
      assert c != '\'' && '\'' !in tail by { assert p == [c] + tail; }
      ReadQuotedPlain(tail, rest);
      assert p + "'" + rest == [c] + (tail + "'" + rest);
      QuotedStep(c, tail + "'" + rest);
      assert [c] + tail == p;
    }
  }

  /** A line `file '<body>'` names what the quoted reader makes of `<body>'`. */
  lemma ReadQuotedLine(body: string)
    ensures ReadFileLine("file '" + body + "'") == Some(ReadQuoted(body + "'"))
  {
    var line := "file '" + body + "'";
    var arg := "'" + (body + "'");
    assert line[..5] == "file " && line[5..] == arg;
    assert SkipBlanks(arg) == arg;
    QuotedStep('x', body + "'");
  }

  /** An escaped entry names exactly its path, whatever characters the path holds. */
  lemma EntryEscapedRoundTrip(p: Path)
    ensures ReadFileLine(EntryLine(p, true)) == Some(p)
  {
    assert EntryLine(p, true) == "file '" + EscapeQuotes(p) + "'";
    ReadQuotedLine(EscapeQuotes(p));
    ReadQuotedEscaped(p, "");
    assert EscapeQuotes(p) + "'" + "" == EscapeQuotes(p) + "'";
    assert ReadUnquoted("") == "" && p + "" == p;
  }

  /** An unescaped entry names exactly its path when the path holds no single quote. */
  lemma EntryRawRoundTrip(p: Path)
    requires '\'' !in p
    ensures ReadFileLine(EntryLine(p, false)) == Some(p)
  {
    assert EntryLine(p, false) == "file '" + p + "'";
    ReadQuotedLine(p);
    ReadQuotedPlain(p, "");
    assert p + "'" + "" == p + "'";
    assert ReadUnquoted("") == "" && p + "" == p;
  }

  /** The unescaped entry of `a'b` names the different path `ab`. */
  lemma EntryRawLosesQuote()
    ensures ReadFileLine(EntryLine("a'b", false)) == Some("ab")
  {
    assert EntryLine("a'b", false) == "file '" + "a'b" + "'";
    ReadQuotedLine("a'b");
    calc {
      ReadQuoted("a'b" + "'");
      { assert "a'b" + "'" == ['a'] + "'b'"; QuotedStep('a', "'b'"); }
      "a" + ReadQuoted("'b'");
      { assert "'b'" == "'" + "b'"; QuotedStep('x', "b'"); }
      "a" + ReadUnquoted("b'");
      { assert "b'"[1..] == "'"; }
      "a" + ("b" + ReadUnquoted("'"));
      { assert "'" == "'" + ""; QuotedStep('x', ""); }
      "a" + ("b" + ReadQuoted(""));
      "ab";
    }
  }

  lemma {:induction false} EscapeKeepsLineBreaks(p: string)
    requires NoLineBreak(p)
    ensures NoLineBreak(EscapeQuotes(p))
    decreases |p|
  {
    if |p| > 0 {
      EscapeKeepsLineBreaks(p[1..]);
    }
  }

  /** Reading the lines of entries gives back the paths, in order. */
  lemma {:induction false} ReadLinesOfEntries(ps: seq<Path>, escaped: bool)
    requires !escaped ==> forall i :: 0 <= i < |ps| ==> '\'' !in ps[i]
    ensures ReadLines(Lines(ps, escaped)) == Some(ps)
    decreases |ps|
  {
    if |ps| > 0 {
      if escaped {
        EntryEscapedRoundTrip(ps[0]);
      } else {
        EntryRawRoundTrip(ps[0]);
      }
      ReadLinesOfEntries(ps[1..], escaped);
      assert Lines(ps, escaped)[1..] == Lines(ps[1..], escaped);
      assert [ps[0]] + ps[1..] == ps;
    }
  }

  /**
   * For a non-empty list of paths without line breaks, the manifest has one
   * line per path and line `i` is the entry of path `i`.
   */
  lemma ManifestLines(ps: seq<Path>, escaped: bool)
    requires |ps| > 0
    requires forall i :: 0 <= i < |ps| ==> NoLineBreak(ps[i])
    ensures Split(ListText(ps, escaped), '\n') == Lines(ps, escaped)
  {
    var lines := Lines(ps, escaped);
    forall i | 0 <= i < |lines|
      ensures '\n' !in lines[i]
    {
      if escaped {
        EscapeKeepsLineBreaks(ps[i]);
      }
      assert lines[i] == "file '" + (if escaped then EscapeQuotes(ps[i]) else ps[i]) + "'";
    }
    SplitJoin(lines, '\n');
  }

  /**
   * The escaped manifest (src/server.ts) reads back as exactly the segment
   * paths, in order, for any paths without line breaks.
   */
  lemma EscapedManifestRoundTrip(ps: seq<Path>)
    requires forall i :: 0 <= i < |ps| ==> NoLineBreak(ps[i])
    ensures ReadManifest(ListText(ps, true)) == Some(ps)
  {
    if |ps| > 0 {
      ManifestLines(ps, true);
    }
    ReadLinesOfEntries(ps, true);
  }

  /**
   * The unescaped manifest (src/server.js) reads back as the segment paths,
   * in order, provided no path holds a single quote or a line break.
   */
  lemma RawManifestRoundTrip(ps: seq<Path>)
    requires forall i :: 0 <= i < |ps| ==> NoLineBreak(ps[i]) && '\'' !in ps[i]
    ensures ReadManifest(ListText(ps, false)) == Some(ps)
  {
    if |ps| > 0 {
      ManifestLines(ps, false);
    }
    ReadLinesOfEntries(ps, false);
  }

  /** A path with a single quote does not survive the unescaped manifest. */
  lemma RawManifestLosesQuote()
    ensures ReadManifest(ListText(["a'b"], false)) == Some(["ab"])
  {
    EntryRawLosesQuote();
    ManifestLines(["a'b"], false);
    var lines := Lines(["a'b"], false);
    assert lines == [EntryLine("a'b", false)] && lines[0] != "" && lines[1..] == [];
    assert ReadLines(lines[1..]) == Some([]);
    assert ReadFileLine(lines[0]) == Some("ab");
    assert |lines| == 1;
    var first := ReadFileLine(lines[0]).value;
    assert ReadLines(lines) == Some([first] + []);
    assert [first] + [] == ["ab"];
    assert Split(ListText(["a'b"], false), '\n') == lines;
  }
}
