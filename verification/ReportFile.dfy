// Report files as lines: str.splitlines on reading, a newline after each line on writing.

module ReportFile {
  // str.splitlines on text read with universal newlines: no carriage return is left in it.
  predicate Breaks(c: char) {
    c == '\n' || c as int in {11, 12, 28, 29, 30, 0x85, 0x2028, 0x2029}
  }

  function Lines(text: string): seq<string> { LinesFrom(text, "") }

  function LinesFrom(text: string, line: string): seq<string> {
    if text == "" then (if line == "" then [] else [line])
    else if Breaks(text[0]) then [line] + LinesFrom(text[1..], "")
    else LinesFrom(text[1..], line + [text[0]])
  }

  // Each line ended by a newline; a file of no lines is a single newline.
  function Written(lines: seq<string>): string { if lines == [] then "\n" else Ended(lines) }

  function Ended(lines: seq<string>): string {
    if lines == [] then "" else lines[0] + "\n" + Ended(lines[1..])
  }

  predicate Unbroken(line: string) { forall k | 0 <= k < |line| :: !Breaks(line[k]) }

  ghost predicate AllUnbroken(lines: seq<string>) { forall l | l in lines :: Unbroken(l) }

  lemma {:induction false} LineRead(done: string, line: string, text: string)
    requires Unbroken(line)
    ensures LinesFrom(line + "\n" + text, done) == [done + line] + LinesFrom(text, "")
    decreases |line|
  {
    var all := line + "\n" + text;
    if line == "" {
      assert all[0] == '\n' && all[1..] == text && done + line == done;
    } else {
      assert all[0] == line[0] && all[1..] == line[1..] + "\n" + text;
      assert Unbroken(line[1..]);
      LineRead(done + [line[0]], line[1..], text);
      assert done + [line[0]] + line[1..] == done + line;
    }
  }

  lemma {:induction false} EndedLinesRead(lines: seq<string>)
    requires AllUnbroken(lines)
    ensures Lines(Ended(lines)) == lines
  {
    if lines != [] {
      assert Unbroken(lines[0]);
      LineRead("", lines[0], Ended(lines[1..]));
      assert "" + lines[0] == lines[0];
      EndedLinesRead(lines[1..]);
    }
  }

  lemma {:induction false} LinesAreUnbroken(text: string, line: string)
    requires Unbroken(line)
    ensures AllUnbroken(LinesFrom(text, line))
    decreases |text|
  {
    if text != "" {
      if Breaks(text[0]) { LinesAreUnbroken(text[1..], ""); } else { LinesAreUnbroken(text[1..], line + [text[0]]); }
    }
  }

  // What is written is read back, but for the single line of an empty file.
  lemma WrittenIsRead(lines: seq<string>)
    requires AllUnbroken(lines)
    ensures Lines(Written(lines)) == if lines == [] then [""] else lines
  {
    if lines == [] {
      LineRead("", "", "");
      assert "" + "\n" + "" == "\n";
    } else {
      EndedLinesRead(lines);
    }
  }
}
