/** The text of an event stream: scanning it into lines, and printing events. */
module SseText {
  import Text

  /** Where the first line stops: at its newline, or at the end of the input. */
  function LineEnd(input: string): (r: nat)
    ensures r <= |input|
  {
    Text.IndexOf(input, '\n')
  }

  function DropCR(line: string): string {
    if line != "" && line[|line| - 1] == '\r' then line[..|line| - 1] else line
  }

  /** The scanner drops one carriage return, the parser another. */
  function FirstLine(input: string): string {
    DropCR(DropCR(input[..LineEnd(input)]))
  }

  function AfterLine(input: string): (r: string)
    ensures input != "" ==> |r| < |input|
  {
    if LineEnd(input) < |input| then input[LineEnd(input) + 1..] else ""
  }

  ghost function Lines(input: string): seq<string>
    decreases |input|
  {
    if input == "" then [] else [FirstLine(input)] + Lines(AfterLine(input))
  }

  lemma {:induction false} LinesSplit(input: string)
    requires input != ""
    ensures Lines(input) == [FirstLine(input)] + Lines(AfterLine(input))
  {
  }

  /** A line that survives printing and scanning. */
  ghost predicate Clean(line: string) {
    '\n' !in line && (line != "" ==> line[|line| - 1] != '\r')
  }

  lemma {:induction false} LinesCons(line: string, rest: string)
    requires Clean(line)
    ensures Lines(line + ['\n'] + rest) == [line] + Lines(rest)
  {
    var input := line + ['\n'] + rest;
    Text.IndexAfter(line, '\n', rest);
    assert input[..|line|] == line;
    assert input[|line| + 1..] == rest;
    assert FirstLine(input) == line && AfterLine(input) == rest;
  }

  /** A line ended by carriage return and newline reads the same. */
  lemma {:induction false} LinesConsReturn(line: string, rest: string)
    requires Clean(line)
    ensures Lines(line + ['\r', '\n'] + rest) == [line] + Lines(rest)
  {
    var input, full := line + ['\r', '\n'] + rest, line + ['\r'];
    assert input == full + ['\n'] + rest;
    Text.IndexAfter(full, '\n', rest);
    assert input[..|full|] == full && input[|full| + 1..] == rest;
    assert DropCR(full) == line;
    assert FirstLine(input) == line && AfterLine(input) == rest;
  }

  /** Each line printed as an event of its own, ended by a blank line. */
  ghost function Printed(lines: seq<string>): string {
    if lines == [] then "" else lines[0] + ['\n', '\n'] + Printed(lines[1..])
  }

  ghost function Blanked(lines: seq<string>, rest: seq<string>): seq<string> {
    if lines == [] then rest else [lines[0], ""] + Blanked(lines[1..], rest)
  }

  lemma {:induction false} BlankLine(rest: string)
    ensures Lines(['\n'] + rest) == [""] + Lines(rest)
  {
    LinesCons("", rest);
    assert "" + ['\n'] + rest == ['\n'] + rest;
  }

  lemma {:induction false} TwoBreaks(line: string, rest: string)
    ensures line + ['\n', '\n'] + rest == line + ['\n'] + (['\n'] + rest)
  {
  }

  lemma {:induction false} EventLines(line: string, rest: string)
    requires Clean(line)
    ensures Lines(line + ['\n', '\n'] + rest) == [line, ""] + Lines(rest)
  {
    TwoBreaks(line, rest);
    LinesCons(line, ['\n'] + rest);
    BlankLine(rest);
    InFront(line, "", Lines(rest));
  }

  lemma {:induction false} InFront(first: string, second: string, rest: seq<string>)
    ensures [first] + ([second] + rest) == [first, second] + rest
  {
  }

  lemma {:induction false} PrintedFirst(lines: seq<string>, tail: string)
    requires lines != []
    ensures Printed(lines) + tail == lines[0] + ['\n', '\n'] + (Printed(lines[1..]) + tail)
  {
  }

  /** Scanning what was printed gives the lines back, each followed by its blank line. */
  lemma {:induction false} PrintedLines(lines: seq<string>, tail: string)
    requires forall k :: 0 <= k < |lines| ==> Clean(lines[k])
    ensures Lines(Printed(lines) + tail) == Blanked(lines, Lines(tail))
  {
    if lines == [] {
      assert Printed(lines) + tail == tail;
    } else {
      PrintedFirst(lines, tail);
      PrintedLines(lines[1..], tail);
      EventLines(lines[0], Printed(lines[1..]) + tail);
    }
  }

  lemma {:induction false} PrintedAppend(lines: seq<string>, line: string)
    ensures Printed(lines + [line]) == Printed(lines) + (line + ['\n', '\n'])
  {
    if lines == [] {
      assert lines + [line] == [line] && [line][1..] == [];
      assert Printed([]) == "";
      assert line + ['\n', '\n'] + "" == line + ['\n', '\n'];
    } else {
      assert (lines + [line])[1..] == lines[1..] + [line];
      PrintedAppend(lines[1..], line);
      var last := line + ['\n', '\n'];
      assert lines[0] + ['\n', '\n'] + (Printed(lines[1..]) + last)
          == (lines[0] + ['\n', '\n'] + Printed(lines[1..])) + last;
    }
  }
}
