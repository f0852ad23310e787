/** Splitting a text into lines on LF and joining it back. */
module Text {

  type Line = string

  function SplitLines(text: string): (lines: seq<Line>)
    ensures |lines| > 0
  {
    if text == "" then [""]
    else
      var rest := SplitLines(text[1..]);
      if text[0] == '\n' then [""] + rest else [[text[0]] + rest[0]] + rest[1..]
  }

  function JoinLines(lines: seq<Line>): string {
    if lines == [] then ""
    else if |lines| == 1 then lines[0]
    else lines[0] + "\n" + JoinLines(lines[1..])
  }

  ghost predicate OneLine(line: Line) {
    '\n' !in line
  }

  lemma {:induction false} SplitGivesLines(text: string)
    ensures forall l :: l in SplitLines(text) ==> OneLine(l)
  {
    if text != "" {
      SplitGivesLines(text[1..]);
      var rest := SplitLines(text[1..]);
      assert rest[0] in rest;
      assert forall l :: l in rest[1..] ==> l in rest;
    }
  }

  /** A text survives being split and joined. */
  lemma {:induction false} JoinSplit(text: string)
    ensures JoinLines(SplitLines(text)) == text
  {
    if text != "" {
      JoinSplit(text[1..]);
      var rest := SplitLines(text[1..]);
      if text[0] == '\n' {
        var lines := [""] + rest;
        assert lines[1..] == rest;
        assert JoinLines(lines) == "" + "\n" + text[1..];
      } else {
        var lines := [[text[0]] + rest[0]] + rest[1..];
        assert lines[1..] == rest[1..];
        assert JoinLines(lines) == [text[0]] + JoinLines(rest);
      }
    }
  }

  lemma {:induction false} SplitPrefix(line: Line, text: string)
    requires OneLine(line)
    ensures SplitLines(line + text) == [line + SplitLines(text)[0]] + SplitLines(text)[1..]
  {
    if line == "" {
      assert line + text == text;
      assert line + SplitLines(text)[0] == SplitLines(text)[0];
    } else {
      assert OneLine(line[1..]);
      SplitPrefix(line[1..], text);
      assert (line + text)[1..] == line[1..] + text;
      assert line + SplitLines(text)[0] == [line[0]] + (line[1..] + SplitLines(text)[0]);
    }
  }

  /** Lines survive being joined and split, as long as none holds a line break. */
  lemma {:induction false} SplitJoin(lines: seq<Line>)
    requires lines != [] && forall l :: l in lines ==> OneLine(l)
    ensures SplitLines(JoinLines(lines)) == lines
  {
    assert lines[0] in lines;
    if |lines| == 1 {
      SplitPrefix(lines[0], "");
      assert lines[0] + "" == lines[0];
    } else {
      assert forall l :: l in lines[1..] ==> l in lines;
      SplitJoin(lines[1..]);
      SplitBreak(JoinLines(lines[1..]));
      var tail := "\n" + JoinLines(lines[1..]);
      assert lines[0] + tail == JoinLines(lines);
      hide SplitLines, JoinLines, OneLine;
      SplitPrefix(lines[0], tail);
      assert ([""] + lines[1..])[1..] == lines[1..];
      assert lines[0] + "" == lines[0];
      assert lines == [lines[0]] + lines[1..];
    }
  }

  lemma SplitBreak(text: string)
    ensures SplitLines("\n" + text) == [""] + SplitLines(text)
  {
    assert ("\n" + text)[1..] == text;
  }
}
