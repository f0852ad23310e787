/** The two-way line diff of the conflict dialog, with its prefix and suffix trimming. */
module LineDiff {

  import opened Lcs
  import opened Text
  import opened Options

  const MAX_DIFF_CELLS := 4_000_000

  datatype Kind = Context | Added | Removed

  datatype DiffLine = DiffLine(kind: Kind, text: Line)

  /** CRLF becomes LF; a lone CR stays. */
  function NormalizeBreaks(text: string): string {
    if text == "" then ""
    else if |text| >= 2 && text[0] == '\r' && text[1] == '\n' then "\n" + NormalizeBreaks(text[2..])
    else [text[0]] + NormalizeBreaks(text[1..])
  }

  function ToLines(text: string): seq<Line> {
    SplitLines(NormalizeBreaks(text))
  }

  /** A line with neither a line feed nor a carriage return. */
  ghost predicate PlainLine(line: Line) {
    forall i :: 0 <= i < |line| ==> line[i] != '\n' && line[i] != '\r'
  }

  function JoinWith(lines: seq<Line>, separator: string): string {
    if lines == [] then ""
    else if |lines| == 1 then lines[0]
    else lines[0] + separator + JoinWith(lines[1..], separator)
  }

  lemma {:induction false} NormalizePrefix(line: Line, rest: string)
    requires PlainLine(line)
    ensures NormalizeBreaks(line + rest) == line + NormalizeBreaks(rest)
  {
    if line == "" {
      assert line + rest == rest;
    } else {
      assert PlainLine(line[1..]);
      NormalizePrefix(line[1..], rest);
      assert (line + rest)[1..] == line[1..] + rest;
      assert line == [line[0]] + line[1..];
    }
  }

  lemma NormalizeBreak(separator: string, rest: string)
    requires separator == "\n" || separator == "\r\n"
    ensures NormalizeBreaks(separator + rest) == "\n" + NormalizeBreaks(rest)
  {
    assert (separator + rest)[|separator|..] == rest;
  }

  lemma NormalizeStep(first: Line, separator: string, rest: string)
    requires PlainLine(first) && (separator == "\n" || separator == "\r\n")
    ensures NormalizeBreaks(first + separator + rest) == first + "\n" + NormalizeBreaks(rest)
  {
    hide NormalizeBreaks, PlainLine;
    NormalizePrefix(first, separator + rest);
    NormalizeBreak(separator, rest);
    assert first + separator + rest == first + (separator + rest);
    assert first + "\n" + NormalizeBreaks(rest) == first + ("\n" + NormalizeBreaks(rest));
  }

  lemma NormalizeLine(line: Line)
    requires PlainLine(line)
    ensures NormalizeBreaks(line) == line
  {
    NormalizePrefix(line, "");
    assert line + "" == line;
  }

  lemma {:induction false} NormalizeJoined(lines: seq<Line>, separator: string)
    requires lines != [] && (forall l :: l in lines ==> PlainLine(l))
    requires separator == "\n" || separator == "\r\n"
    ensures NormalizeBreaks(JoinWith(lines, separator)) == JoinLines(lines)
  {
    hide NormalizeBreaks, PlainLine;
    assert lines[0] in lines;
    if |lines| == 1 {
      NormalizeLine(lines[0]);
    } else {
      assert forall l :: l in lines[1..] ==> l in lines;
      NormalizeJoined(lines[1..], separator);
      NormalizeStep(lines[0], separator, JoinWith(lines[1..], separator));
    }
  }

  /** Windows and Unix copies compare cleanly: with either break, a text has the same lines. */
  lemma EitherBreak(lines: seq<Line>, separator: string)
    requires lines != [] && (forall l :: l in lines ==> PlainLine(l))
    requires separator == "\n" || separator == "\r\n"
    ensures ToLines(JoinWith(lines, separator)) == lines
  {
    assert forall l :: l in lines ==> OneLine(l);
    hide PlainLine, OneLine, SplitLines, JoinLines, JoinWith, NormalizeBreaks;
    NormalizeJoined(lines, separator);
    SplitJoin(lines);
  }

  /** The lines of one version: context plus the lines only it has. */
  ghost function Version(diff: seq<DiffLine>, other: Kind): seq<Line> {
    if diff == [] then []
    else
      var last := diff[|diff| - 1];
      Version(diff[..|diff| - 1], other) + (if last.kind == other then [] else [last.text])
  }

  ghost function Mine(diff: seq<DiffLine>): seq<Line> { Version(diff, Added) }

  ghost function Theirs(diff: seq<DiffLine>): seq<Line> { Version(diff, Removed) }

  ghost function ContextCount(diff: seq<DiffLine>): nat {
    if diff == [] then 0
    else ContextCount(diff[..|diff| - 1]) + (if diff[|diff| - 1].kind == Context then 1 else 0)
  }

  /** Within a change the removed lines come first: an added line is never directly followed by a removed one. */
  ghost predicate RemovedFirst(diff: seq<DiffLine>) {
    forall k :: 0 < k < |diff| && diff[k].kind == Removed ==> diff[k - 1].kind != Added
  }

  ghost predicate EndsAdded(diff: seq<DiffLine>) {
    diff != [] && diff[|diff| - 1].kind == Added
  }

  lemma Pushed(diff: seq<DiffLine>, d: DiffLine)
    ensures Mine(diff + [d]) == Mine(diff) + (if d.kind == Added then [] else [d.text])
    ensures Theirs(diff + [d]) == Theirs(diff) + (if d.kind == Removed then [] else [d.text])
    ensures ContextCount(diff + [d]) == ContextCount(diff) + (if d.kind == Context then 1 else 0)
    ensures EndsAdded(diff + [d]) <==> d.kind == Added
    ensures RemovedFirst(diff) && (d.kind == Removed ==> !EndsAdded(diff)) ==> RemovedFirst(diff + [d])
  {
    assert (diff + [d])[..|diff|] == diff;
  }

  // ---- Trimming costs no matches ------------------------------------------------------------------

  lemma {:induction false} CommonLastLine(x: seq<Line>, y: seq<Line>, z: Line, i: nat, j: nat)
    requires i <= |x| && j <= |y|
    ensures Len(x + [z], y + [z], i, j) == Len(x, y, i, j) + 1
    decreases |x| - i + |y| - j
  {
    var x', y' := x + [z], y + [z];
    if i < |x| {
      CommonLastLine(x, y, z, i + 1, j);
    }
    if j < |y| {
      CommonLastLine(x, y, z, i, j + 1);
    }
    if i < |x| && j < |y| {
      CommonLastLine(x, y, z, i + 1, j + 1);
    } else if i < |x| {
      assert Len(x', y', i + 1, j) == 1 && Len(x', y', i, j + 1) == 0;
    } else if j < |y| {
      assert Len(x', y', i, j + 1) == 1 && Len(x', y', i + 1, j) == 0;
    }
  }

  lemma {:induction false} CommonSuffix(x: seq<Line>, y: seq<Line>, z: seq<Line>)
    ensures Len(x + z, y + z, 0, 0) == Len(x, y, 0, 0) + |z|
    decreases |z|
  {
    if z == [] {
      assert x + z == x && y + z == y;
    } else {
      var rest, last := z[..|z| - 1], z[|z| - 1];
      assert x + z == (x + rest) + [last] && y + z == (y + rest) + [last];
      CommonLastLine(x + rest, y + rest, last, 0, 0);
      CommonSuffix(x, y, rest);
    }
  }

  lemma FromPrefix(x: seq<Line>, i: nat, j: nat)
    requires i <= j <= |x|
    ensures x[i..] == (x[i..j] + x[j..])[0..]
  {
  }

  /** Matching the shared first and last lines directly loses no common line. */
  lemma TrimmingIsOptimal(x: seq<Line>, y: seq<Line>, prefix: nat, suffix: nat)
    requires prefix + suffix <= |x| && prefix + suffix <= |y|
    requires x[..prefix] == y[..prefix] && x[|x| - suffix..] == y[|y| - suffix..]
    ensures Len(x, y, 0, 0)
         == prefix + Len(x[prefix..|x| - suffix], y[prefix..|y| - suffix], 0, 0) + suffix
  {
    hide Len;
    forall t | 0 <= t < prefix ensures x[t] == y[t] {
      assert x[t] == x[..prefix][t] == y[..prefix][t];
    }
    LenRun(x, y, 0, 0, prefix);
    var a, b, z := x[prefix..|x| - suffix], y[prefix..|y| - suffix], x[|x| - suffix..];
    FromPrefix(x, prefix, |x| - suffix);
    FromPrefix(y, prefix, |y| - suffix);
    LenSuffix(x, y, prefix, prefix, a + z, b + z, 0, 0);
    CommonSuffix(a, b, z);
  }

  // ---- The diff ------------------------------------------------------------------------------------

  /** Length of the longest common prefix. */
  method SharedPrefix(x: seq<Line>, y: seq<Line>) returns (prefix: nat)
    ensures prefix <= |x| && prefix <= |y| && x[..prefix] == y[..prefix]
    ensures prefix < |x| && prefix < |y| ==> x[prefix] != y[prefix]
  {
    prefix := 0;
    while prefix < |x| && prefix < |y| && x[prefix] == y[prefix]
      invariant prefix <= |x| && prefix <= |y| && x[..prefix] == y[..prefix]
    {
      assert x[..prefix + 1] == x[..prefix] + [x[prefix]] && y[..prefix + 1] == y[..prefix] + [y[prefix]];
      prefix := prefix + 1;
    }
  }

  /** Length of the longest common suffix that leaves the prefix alone. */
  method SharedSuffix(x: seq<Line>, y: seq<Line>, prefix: nat) returns (suffix: nat)
    requires prefix <= |x| && prefix <= |y|
    ensures prefix + suffix <= |x| && prefix + suffix <= |y|
    ensures x[|x| - suffix..] == y[|y| - suffix..]
    ensures suffix < |x| - prefix && suffix < |y| - prefix ==> x[|x| - 1 - suffix] != y[|y| - 1 - suffix]
  {
    suffix := 0;
    while suffix < |x| - prefix && suffix < |y| - prefix && x[|x| - 1 - suffix] == y[|y| - 1 - suffix]
      invariant prefix + suffix <= |x| && prefix + suffix <= |y|
      invariant x[|x| - suffix..] == y[|y| - suffix..]
    {
      assert x[|x| - suffix - 1..] == [x[|x| - 1 - suffix]] + x[|x| - suffix..];
      assert y[|y| - suffix - 1..] == [y[|y| - 1 - suffix]] + y[|y| - suffix..];
      suffix := suffix + 1;
    }
  }

  /** Appends lines of one kind. */
  method PushAll(diff: seq<DiffLine>, kind: Kind, lines: seq<Line>) returns (r: seq<DiffLine>)
    ensures Mine(r) == Mine(diff) + (if kind == Added then [] else lines)
    ensures Theirs(r) == Theirs(diff) + (if kind == Removed then [] else lines)
    ensures ContextCount(r) == ContextCount(diff) + (if kind == Context then |lines| else 0)
    ensures RemovedFirst(diff) && (kind == Removed && lines != [] ==> !EndsAdded(diff)) ==> RemovedFirst(r)
    ensures kind != Added && EndsAdded(r) ==> lines == [] && EndsAdded(diff)
  {
    hide RemovedFirst, EndsAdded, Version, ContextCount;
    ghost var ordered := RemovedFirst(diff) && (kind == Removed && lines != [] ==> !EndsAdded(diff));
    r := diff;
    var k := 0;
    while k < |lines|
      invariant 0 <= k <= |lines|
      invariant Mine(r) == Mine(diff) + (if kind == Added then [] else lines[..k])
      invariant Theirs(r) == Theirs(diff) + (if kind == Removed then [] else lines[..k])
      invariant ContextCount(r) == ContextCount(diff) + (if kind == Context then k else 0)
      invariant ordered ==> RemovedFirst(r)
      invariant k == 0 ==> r == diff
      invariant k > 0 && kind != Added ==> !EndsAdded(r)
    {
      Pushed(r, DiffLine(kind, lines[k]));
      assert lines[..k + 1] == lines[..k] + [lines[k]];
      r := r + [DiffLine(kind, lines[k])];
      k := k + 1;
    }
    assert lines[..k] == lines;
  }

  /** The backtrace over the trimmed middle. */
  method DiffMiddle(start: seq<DiffLine>, a: seq<Line>, b: seq<Line>) returns (diff: seq<DiffLine>)
    ensures Mine(diff) == Mine(start) + a
    ensures Theirs(diff) == Theirs(start) + b
    ensures ContextCount(diff) == ContextCount(start) + Len(a, b, 0, 0)
    ensures RemovedFirst(start) && !EndsAdded(start) ==> RemovedFirst(diff)
  {
    hide At, Version, ContextCount, RemovedFirst, EndsAdded;
    var lcs := FillTable(a, b);
    var n, m := |a|, |b|;
    var width := m + 1;
    ghost var filled := lcs[..];
    diff := start;
    var i, j := 0, 0;
    while i < n && j < m
      invariant lcs[..] == filled
      invariant 0 <= i <= n && 0 <= j <= m
      invariant Mine(diff) == Mine(start) + a[..i] && Theirs(diff) == Theirs(start) + b[..j]
      invariant ContextCount(diff) + Len(a, b, i, j) == ContextCount(start) + Len(a, b, 0, 0)
      invariant RemovedFirst(start) && !EndsAdded(start) ==> RemovedFirst(diff)
      invariant !EndsAdded(start) && EndsAdded(diff) ==> i == n || Len(a, b, i + 1, j) < Len(a, b, i, j)
      decreases n - i + m - j
    {
      assert Cell(a, b, lcs[..], i + 1, j) && Cell(a, b, lcs[..], i, j + 1);
      assert a[..i + 1] == a[..i] + [a[i]] && b[..j + 1] == b[..j] + [b[j]];
      if a[i] == b[j] {
        Pushed(diff, DiffLine(Context, a[i]));
        diff := diff + [DiffLine(Context, a[i])];
        i, j := i + 1, j + 1;
      } else if lcs[At(width, i + 1, j)] >= lcs[At(width, i, j + 1)] {
        Pushed(diff, DiffLine(Removed, a[i]));
        diff := diff + [DiffLine(Removed, a[i])];
        i := i + 1;
      } else {
        Pushed(diff, DiffLine(Added, b[j]));
        diff := diff + [DiffLine(Added, b[j])];
        LenStep(a, b, i + 1, j);
        j := j + 1;
      }
    }
    assert a[..i] + a[i..] == a && b[..j] + b[j..] == b;
    diff := PushAll(diff, Removed, a[i..]);
    diff := PushAll(diff, Added, b[j..]);
  }

  /** `prefix` and `suffix` are the trims the diff applies to the two line arrays. */
  ghost predicate Trims(x: seq<Line>, y: seq<Line>, prefix: nat, suffix: nat) {
    && prefix + suffix <= |x| && prefix + suffix <= |y|
    && x[..prefix] == y[..prefix] && x[|x| - suffix..] == y[|y| - suffix..]
    && (prefix < |x| && prefix < |y| ==> x[prefix] != y[prefix])
    && (prefix + suffix < |x| && prefix + suffix < |y| ==> x[|x| - 1 - suffix] != y[|y| - 1 - suffix])
  }

  /** Table cells the trimmed middle needs. */
  function MiddleCells(x: seq<Line>, y: seq<Line>, prefix: nat, suffix: nat): int {
    (|x| - prefix - suffix + 1) * (|y| - prefix - suffix + 1)
  }

  lemma Reassemble(x: seq<Line>, prefix: nat, suffix: nat)
    requires prefix + suffix <= |x|
    ensures x[..prefix] + x[prefix..|x| - suffix] + x[|x| - suffix..] == x
  {
  }

  /** The diff shown in the conflict dialog, or None when the middle is too large. */
  method ComputeLineDiff(mine: string, theirs: string) returns (r: Option<seq<DiffLine>>)
    ensures r.Some? ==>
              && Mine(r.value) == ToLines(mine)
              && Theirs(r.value) == ToLines(theirs)
              && ContextCount(r.value) == Len(ToLines(mine), ToLines(theirs), 0, 0)
              && RemovedFirst(r.value)
    ensures exists prefix, suffix :: Trims(ToLines(mine), ToLines(theirs), prefix, suffix) &&
              (r.None? <==> MiddleCells(ToLines(mine), ToLines(theirs), prefix, suffix) > MAX_DIFF_CELLS)
  {
    hide Len, ContextCount, ToLines;
    var allA, allB := ToLines(mine), ToLines(theirs);
    var prefix := SharedPrefix(allA, allB);
    var suffix := SharedSuffix(allA, allB, prefix);
    assert Trims(allA, allB, prefix, suffix);
    if MiddleCells(allA, allB, prefix, suffix) > MAX_DIFF_CELLS {
      return None;
    }
    r := DiffTrimmed(allA, allB, prefix, suffix);
  }

  /** The shared prefix, the backtrace over the middle, the shared suffix. */
  method DiffTrimmed(allA: seq<Line>, allB: seq<Line>, prefix: nat, suffix: nat) returns (r: Option<seq<DiffLine>>)
    requires Trims(allA, allB, prefix, suffix)
    ensures r.Some? && Mine(r.value) == allA && Theirs(r.value) == allB
    ensures ContextCount(r.value) == Len(allA, allB, 0, 0) && RemovedFirst(r.value)
  {
    hide Len;
    TrimmingIsOptimal(allA, allB, prefix, suffix);
    var diff := PushAll([], Context, allA[..prefix]);
    assert Mine([]) == [] == Theirs([]) && ContextCount([]) == 0;
    assert [] + allA[..prefix] == allA[..prefix];
    diff := DiffMiddle(diff, allA[prefix..|allA| - suffix], allB[prefix..|allB| - suffix]);
    diff := PushAll(diff, Context, allA[|allA| - suffix..]);
    Reassemble(allA, prefix, suffix);
    Reassemble(allB, prefix, suffix);
    return Some(diff);
  }
}
