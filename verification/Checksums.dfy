/** The checksum file of a bundle, its hand-written parser and its printer: the parser reads back what
    is printed, and accepts without an error nothing but the printed form of some map of names to digests
    (`src/edge_evidence/bundle.py:275-277` and `:369-389`). */
module Checksums {
  import opened Wrappers
  import opened Libraries
  import Text

  type Entries = map<string, string>

  datatype ChecksumError = InvalidEncoding | InvalidLine | InvalidPath | Noncanonical

  datatype Parsed = Parsed(entries: Entries, errors: seq<ChecksumError>)

  /** The boundaries of `str.splitlines`. */
  predicate LineBreak(c: char) {
    c == '\n' || c == '\r' || c as int in {0x0b, 0x0c, 0x1c, 0x1d, 0x1e, 0x85, 0x2028, 0x2029}
  }

  /** The index of the first line boundary, or the length. */
  function BreakIndex(s: string): (n: nat)
    ensures n <= |s| && forall i | 0 <= i < n :: !LineBreak(s[i])
    ensures n < |s| ==> LineBreak(s[n])
  {
    if s == "" || LineBreak(s[0]) then 0 else 1 + BreakIndex(s[1..])
  }

  /** `str.splitlines`: a carriage return and a line feed in a row are one boundary. */
  function SplitLines(s: string): seq<string> {
    if s == "" then []
    else
      var n := BreakIndex(s);
      if n == |s| then [s]
      else
        var width := if s[n] == '\r' && n + 1 < |s| && s[n + 1] == '\n' then 2 else 1;
        [s[..n]] + SplitLines(s[n + width..])
  }

  /** Where the first double space starts, or the length. */
  function SeparatorIndex(line: string): (n: nat)
    ensures n <= |line|
    ensures n < |line| ==> n + 1 < |line| && line[n] == ' ' && line[n + 1] == ' '
    ensures forall i | 0 <= i < n :: !(i + 1 < |line| && line[i] == ' ' && line[i + 1] == ' ')
  {
    if |line| < 2 then |line|
    else if line[0] == ' ' && line[1] == ' ' then 0
    else 1 + SeparatorIndex(line[1..])
  }

  predicate Portable(name: string) {
    forall i | 0 <= i < |name| :: name[i] != '/' && name[i] != '\\'
  }

  /** One line of the file. */
  function ParseLine(entries: Entries, line: string): Result<Entries, ChecksumError> {
    var n := SeparatorIndex(line);
    if n == |line| || !HexDigest(line[..n]) then Err(InvalidLine)
    else
      var name := line[n + 2..];
      if name in entries || !Portable(name) then Err(InvalidPath)
      else Ok(entries[name := line[..n]])
  }

  /** The loop over the lines: a bad line is reported and skipped. */
  function ParseLines(lines: seq<string>): Parsed {
    if lines == [] then Parsed(map[], [])
    else
      var before := ParseLines(lines[..|lines| - 1]);
      match ParseLine(before.entries, lines[|lines| - 1])
      case Err(error) => Parsed(before.entries, before.errors + [error])
      case Ok(entries) => Parsed(entries, before.errors)
  }

  /** One line of the printed file. */
  function Line(entries: Entries, name: string): string
    requires name in entries
  {
    entries[name] + "  " + name
  }

  function RenderNames(entries: Entries, names: seq<string>): string
    requires forall name | name in names :: name in entries
  {
    if names == [] then "" else Line(entries, names[0]) + "\n" + RenderNames(entries, names[1..])
  }

  /** The printer: one line per name, sorted. */
  function Render(entries: Entries): string {
    RenderNames(entries, Text.Sorted(entries.Keys))
  }

  function Checked(lib: Library, content: Bytes, parsed: Parsed): Parsed {
    if parsed.errors == [] && content != lib.utf8(Render(parsed.entries))
    then Parsed(parsed.entries, [Noncanonical]) else parsed
  }

  /** `_parse_checksums`, with no errors reported before it. */
  function Parse(lib: Library, content: Bytes): Parsed {
    match lib.text(content)
    case None => Parsed(map[], [InvalidEncoding])
    case Some(s) => Checked(lib, content, ParseLines(SplitLines(s)))
  }

  /** The parser's loop. */
  method ParseChecksums(lib: Library, content: Bytes) returns (entries: Entries, errors: seq<ChecksumError>)
    ensures Parsed(entries, errors) == Parse(lib, content)
  {
    entries, errors := map[], [];
    var decoded := lib.text(content);
    if decoded.None? {
      errors := errors + [InvalidEncoding];
      return;
    }
    var lines := SplitLines(decoded.value);
    for i := 0 to |lines|
      invariant Parsed(entries, errors) == ParseLines(lines[..i])
    {
      assert lines[..i + 1][..i] == lines[..i];
      var line := lines[i];
      var n := SeparatorIndex(line);
      if n == |line| || !HexDigest(line[..n]) {
        errors := errors + [InvalidLine];
        continue;
      }
      var digest, name := line[..n], line[n + 2..];
      if name in entries || !Portable(name) {
        errors := errors + [InvalidPath];
        continue;
      }
      entries := entries[name := digest];
    }
    assert lines[..|lines|] == lines;
    var canonical := Render(entries);
    if errors == [] && content != lib.utf8(canonical) {
      errors := errors + [Noncanonical];
    }
  }

  // ---- Printing and parsing undo each other ----

  predicate Unbroken(s: string) {
    forall i | 0 <= i < |s| :: !LineBreak(s[i])
  }

  /** What can be listed in a checksum file: names of one line without path separators, and digests. */
  ghost predicate Listable(entries: Entries) {
    forall name | name in entries :: Portable(name) && Unbroken(name) && HexDigest(entries[name])
  }

  lemma {:induction false} FirstBreak(line: string, rest: string)
    requires Unbroken(line)
    ensures BreakIndex(line + "\n" + rest) == |line|
  {
    var whole := line + "\n" + rest;
    var n := BreakIndex(whole);
    assert whole[|line|] == '\n';
    assert forall i | 0 <= i < |line| :: whole[i] == line[i];
    assert !(n < |line|) && !(n > |line|);
  }

  lemma SplitFirst(line: string, rest: string)
    requires Unbroken(line)
    ensures SplitLines(line + "\n" + rest) == [line] + SplitLines(rest)
  {
    var whole := line + "\n" + rest;
    FirstBreak(line, rest);
    assert whole[|line|] == '\n' && whole[..|line|] == line && whole[|line| + 1..] == rest;
  }

  function LinesOf(entries: Entries, names: seq<string>): seq<string>
    requires forall name | name in names :: name in entries
  {
    seq(|names|, i requires 0 <= i < |names| => Line(entries, names[i]))
  }

  lemma LineUnbroken(entries: Entries, name: string)
    requires Listable(entries) && name in entries
    ensures Unbroken(Line(entries, name))
  {
    var digest, line := entries[name], Line(entries, name);
    forall i | 0 <= i < |line| ensures !LineBreak(line[i]) {
      if i < 64 {
        assert line[i] == digest[i] && HexDigit(digest[i]);
      } else if i >= 66 {
        assert line[i] == name[i - 66];
      } else {
        assert line[i] == ' ';
      }
    }
  }

  lemma {:induction false} RenderedSplits(entries: Entries, names: seq<string>)
    requires Listable(entries) && forall name | name in names :: name in entries
    ensures SplitLines(RenderNames(entries, names)) == LinesOf(entries, names)
  {
    hide SplitLines;
    if names == [] {
      assert SplitLines("") == [] by { SplitNothing(); }
    } else {
      var rest := names[1..];
      LineUnbroken(entries, names[0]);
      RenderedSplits(entries, rest);
      SplitFirst(Line(entries, names[0]), RenderNames(entries, rest));
      assert LinesOf(entries, names) == [Line(entries, names[0])] + LinesOf(entries, rest);
    }
  }

  lemma SplitNothing()
    ensures SplitLines("") == []
  {
  }

  /** The separator of a printed line follows the digest, even if the name begins with spaces. */
  lemma LineSeparates(entries: Entries, name: string)
    requires Listable(entries) && name in entries
    ensures var line := Line(entries, name);
            SeparatorIndex(line) == 64 < |line| && line[..64] == entries[name] && line[66..] == name
  {
    var digest, line := entries[name], Line(entries, name);
    assert line[64] == ' ' && line[65] == ' ';
    var n := SeparatorIndex(line);
    assert forall i | 0 <= i < 64 :: line[i] == digest[i] && HexDigit(digest[i]);
    assert !(n < 64) && !(n > 64);
  }

  lemma {:induction false} PrintedLinesParse(entries: Entries, names: seq<string>)
    requires Listable(entries) && (forall name | name in names :: name in entries)
    requires forall i, j | 0 <= i < j < |names| :: names[i] != names[j]
    ensures ParseLines(LinesOf(entries, names)) == Parsed(Chosen(entries, names), [])
  {
    if names == [] {
      assert LinesOf(entries, names) == [] && Chosen(entries, names) == map[];
    } else {
      hide ParseLine, Listable, LinesOf;
      var front, name := names[..|names| - 1], names[|names| - 1];
      PrintedLinesParse(entries, front);
      LinesSnoc(entries, front, name);
      assert names == front + [name] && name !in front;
      PrintedLineParses(entries, Chosen(entries, front), name);
      ChosenSnoc(entries, front, name);
    }
  }

  /** The entries of some of the names. */
  function Chosen(entries: Entries, names: seq<string>): Entries
    requires forall name | name in names :: name in entries
  {
    map name | name in names :: entries[name]
  }

  lemma ChosenSnoc(entries: Entries, names: seq<string>, name: string)
    requires name in entries && forall n | n in names :: n in entries
    ensures Chosen(entries, names + [name]) == Chosen(entries, names)[name := entries[name]]
  {
  }

  lemma LinesSnoc(entries: Entries, names: seq<string>, name: string)
    requires name in entries && forall n | n in names :: n in entries
    ensures LinesOf(entries, names + [name]) == LinesOf(entries, names) + [Line(entries, name)]
  {
    hide Line;
  }

  lemma PrintedLineParses(entries: Entries, before: Entries, name: string)
    requires Listable(entries) && name in entries && name !in before
    ensures ParseLine(before, Line(entries, name)) == Ok(before[name := entries[name]])
  {
    hide SeparatorIndex, HexDigest, Portable, Line;
    LineSeparates(entries, name);
  }

  /** Parsing a printed checksum file gives the map it was printed from, without errors. */
  lemma PrintThenParse(lib: Library, entries: Entries)
    requires lib.Lawful() && Listable(entries)
    ensures Parse(lib, lib.utf8(Render(entries))) == Parsed(entries, [])
  {
    hide ParseLines, SplitLines, LinesOf, RenderNames, Listable;
    var names := Text.Sorted(entries.Keys);
    lib.TextRoundTrip(Render(entries));
    RenderedSplits(entries, names);
    PrintedLinesParse(entries, names);
    assert Chosen(entries, names) == entries;
  }

  lemma {:induction false} LinesAreUnbroken(s: string)
    ensures forall line | line in SplitLines(s) :: Unbroken(line)
    decreases |s|
  {
    if s != "" {
      var n := BreakIndex(s);
      if n < |s| {
        var width := if s[n] == '\r' && n + 1 < |s| && s[n + 1] == '\n' then 2 else 1;
        LinesAreUnbroken(s[n + width..]);
      }
    }
  }

  lemma {:induction false} ParsedIsListable(lines: seq<string>)
    requires forall line | line in lines :: Unbroken(line)
    ensures Listable(ParseLines(lines).entries)
  {
    if lines != [] {
      ParsedIsListable(lines[..|lines| - 1]);
      var line := lines[|lines| - 1];
      assert line in lines;
      hide SeparatorIndex, HexDigest;
    }
  }

  /** Whatever the content, the entries kept are listable; and content parses without error exactly
      when it is what the printer makes of a listable map, the map it then parses to. */
  lemma ParsesIffPrinted(lib: Library, content: Bytes)
    requires lib.Lawful()
    ensures Listable(Parse(lib, content).entries)
    ensures Parse(lib, content).errors == [] <==> exists m :: Listable(m) && content == lib.utf8(Render(m))
    ensures Parse(lib, content).errors == [] ==> content == lib.utf8(Render(Parse(lib, content).entries))
  {
    hide Render, ParseLines, SplitLines, Listable;
    ParsedEntriesListable(lib, content);
    if m :| Listable(m) && content == lib.utf8(Render(m)) {
      PrintThenParse(lib, m);
    }
  }

  lemma ParsedEntriesListable(lib: Library, content: Bytes)
    ensures Listable(Parse(lib, content).entries)
  {
    hide Render, ParseLines, SplitLines;
    if lib.text(content).Some? {
      var lines := SplitLines(lib.text(content).value);
      LinesAreUnbroken(lib.text(content).value);
      ParsedIsListable(lines);
    }
  }
}
