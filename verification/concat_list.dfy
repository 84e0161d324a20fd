/**
 The `concat_list.txt` file `create_concat_file` (and the older revision's
 inline loop) writes for ffmpeg's concat demuxer: one `file '<path>'` line
 per segment, in order, each ended by a newline. The reader is the part of
 the demuxer's syntax the writer relies on: a line is the word `file`, a
 space and a single-quoted path that contains no quote.
 */
module ConcatList {
  import opened Wrappers
  import opened Strings

  /** `f"file '{path}'"` without its newline. */
  function Line(path: string): string
  {
    "file '" + path + "'"
  }

  /** The whole file text, written line by line. */
  function ListText(files: seq<string>): (text: string)
    ensures files == [] <==> text == []
    ensures Count(text, '\n') >= |files|
  {
    if files == [] then ""
    else
      CountNewlines(Line(files[0]), ListText(files[1..]));
      Line(files[0]) + "\n" + ListText(files[1..])
  }

  lemma {:induction false} CountNewlines(a: string, b: string)
    ensures Count(a + "\n" + b, '\n') >= 1 + Count(b, '\n')
    decreases |a|
  {
    if a == [] {
      assert (a + "\n" + b)[1..] == b;
    } else {
      assert (a + "\n" + b)[1..] == a[1..] + "\n" + b;
      CountNewlines(a[1..], b);
    }
  }

  /** A path the list can carry unambiguously: no line break, no quote. */
  predicate Quotable(path: string) {
    '\n' !in path && '\'' !in path
  }

  /** Reads one line back; `None` unless it is `file '<path>'` with a quote-free path. */
  function ParseLine(line: string): (r: Option<string>)
    ensures r.Some? ==> '\'' !in r.value && Line(r.value) == line
  {
    if |line| >= 7 && line[..6] == "file '" && line[|line| - 1] == '\'' && '\'' !in line[6..|line| - 1]
    then
      assert line == line[..6] + line[6..|line| - 1] + [line[|line| - 1]];
      Some(line[6..|line| - 1])
    else None
  }

  lemma ParseLineOfLine(path: string)
    requires '\'' !in path
    ensures ParseLine(Line(path)) == Some(path)
  {
    var line := Line(path);
    assert line[..6] == "file '";
    assert line[6..|line| - 1] == path;
  }

  /** Reads every line; `None` if any is malformed. */
  function ParseLines(lines: seq<string>): (r: Option<seq<string>>)
    ensures r.Some? ==> |r.value| == |lines|
    ensures r.Some? ==> forall i :: 0 <= i < |lines| ==> Line(r.value[i]) == lines[i]
  {
    if lines == [] then Some([])
    else
      match (ParseLine(lines[0]), ParseLines(lines[1..]))
      case (Some(p), Some(ps)) =>
        assert forall i :: 1 <= i < |lines| ==> lines[1..][i - 1] == lines[i];
        Some([p] + ps)
      case _ => None
  }

  /** Reads a whole list file: lines separated by newlines, the last one followed by a newline. */
  function ParseListText(text: string): Option<seq<string>>
  {
    var parts := Split(text, '\n');
    if parts[|parts| - 1] != "" then None
    else ParseLines(parts[..|parts| - 1])
  }

  /** Whatever the reader accepts is exactly the list text of the files it returns. */
  lemma ParseListTextSound(text: string)
    ensures ParseListText(text).Some? ==> ListText(ParseListText(text).value) == text
  {
    var parts := Split(text, '\n');
    if parts[|parts| - 1] == "" {
      var lines := parts[..|parts| - 1];
      match ParseLines(lines)
      case Some(files) =>
        ParsedListText(parts, lines, files);
      case None =>
    }
  }

  lemma ParsedListText(parts: seq<string>, lines: seq<string>, files: seq<string>)
    requires |parts| >= 1 && parts[|parts| - 1] == "" && lines == parts[..|parts| - 1]
    requires ParseLines(lines) == Some(files)
    ensures ListText(files) == Join(parts, '\n')
  {
    assert parts == lines + [""];
    LinesOfParsed(files, lines);
    ListTextIsJoin(files);
  }

  /** One `Line` per file, in order; an elementwise helper whose ensures only unfold it for callers. */
  function Lines(files: seq<string>): (ls: seq<string>)
    ensures |ls| == |files|
    ensures forall i :: 0 <= i < |files| ==> ls[i] == Line(files[i])
  {
    seq(|files|, i requires 0 <= i < |files| => Line(files[i]))
  }

  lemma LinesOfParsed(files: seq<string>, lines: seq<string>)
    requires |files| == |lines|
    requires forall i :: 0 <= i < |lines| ==> Line(files[i]) == lines[i]
    ensures Lines(files) == lines
  {
  }

  /** The list text is the newline join of the lines with an empty piece after the last newline. */
  lemma {:induction false} ListTextIsJoin(files: seq<string>)
    ensures ListText(files) == Join(Lines(files) + [""], '\n')
  {
    if files != [] {
      ListTextIsJoin(files[1..]);
      assert Lines(files) + [""] == [Line(files[0])] + (Lines(files[1..]) + [""]);
    }
  }

  /** Reading the written list gives back the segment files, in order. */
  lemma ListRoundTrip(files: seq<string>)
    requires forall i :: 0 <= i < |files| ==> Quotable(files[i])
    ensures ParseListText(ListText(files)) == Some(files)
  {
    var parts := Lines(files) + [""];
    SplitListText(files);
    assert parts[..|parts| - 1] == Lines(files);
    LinesRoundTrip(files);
  }

  lemma SplitListText(files: seq<string>)
    requires forall i :: 0 <= i < |files| ==> Quotable(files[i])
    ensures Split(ListText(files), '\n') == Lines(files) + [""]
  {
    var parts := Lines(files) + [""];
    LinesNewlineFree(files);
    ListTextIsJoin(files);
    SplitJoin(parts, '\n');
  }

  lemma LinesNewlineFree(files: seq<string>)
    requires forall i :: 0 <= i < |files| ==> Quotable(files[i])
    ensures var parts := Lines(files) + [""]; forall k :: 0 <= k < |parts| ==> '\n' !in parts[k]
  {
    var parts := Lines(files) + [""];
    forall k | 0 <= k < |parts|
      ensures '\n' !in parts[k]
    {
      if k < |files| {
        LineKeepsNewlineOut(files[k]);
      }
    }
  }

  lemma LineKeepsNewlineOut(path: string)
    requires '\n' !in path
    ensures '\n' !in Line(path)
  {
  }

  lemma {:induction false} LinesRoundTrip(files: seq<string>)
    requires forall i :: 0 <= i < |files| ==> Quotable(files[i])
    ensures ParseLines(Lines(files)) == Some(files)
  {
    if files != [] {
      ParseLineOfLine(files[0]);
      assert Lines(files)[1..] == Lines(files[1..]);
      LinesRoundTrip(files[1..]);
      assert files == [files[0]] + files[1..];
    }
  }
}
