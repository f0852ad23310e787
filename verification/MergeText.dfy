/** `mergeText`: the merge on whole texts, and its guarantees there. */
module MergeText {

  import opened Text
  import opened MergeSpec
  import opened Options
  import opened MergeProps
  import opened MergeLineSet
  import Diff3

  const DEFAULT_MAX_LCS_CELLS := 4_000_000

  datatype MergeResult = Merged(text: string) | Conflict

  /** One of the two LCS tables would exceed the ceiling. */
  predicate TooLarge(o: seq<Line>, a: seq<Line>, b: seq<Line>, maxCells: int) {
    (|o| + 1) * (|a| + 1) > maxCells || (|o| + 1) * (|b| + 1) > maxCells
  }

  ghost function Merge(ancestor: string, local: string, remote: string, maxCells: int): MergeResult {
    var o, a, b := SplitLines(ancestor), SplitLines(local), SplitLines(remote);
    if TooLarge(o, a, b, maxCells) then Conflict
    else
      match MergeLines(o, a, b)
      case None => Conflict
      case Some(lines) => Merged(JoinLines(lines))
  }

  method MergeTexts(ancestor: string, local: string, remote: string,
                    maxCells: int := DEFAULT_MAX_LCS_CELLS) returns (r: MergeResult)
    ensures r == Merge(ancestor, local, remote, maxCells)
  {
    var o, a, b := SplitLines(ancestor), SplitLines(local), SplitLines(remote);
    if TooLarge(o, a, b, maxCells) {
      return Conflict;
    }
    var lines := Diff3.MergeHunks(o, a, b);
    if lines.None? {
      return Conflict;
    }
    return Merged(JoinLines(lines.value));
  }

  /** Local and remote are interchangeable. */
  lemma MergeIsCommutative(ancestor: string, local: string, remote: string, maxCells: int)
    ensures Merge(ancestor, local, remote, maxCells) == Merge(ancestor, remote, local, maxCells)
  {
    MergeLinesCommutes(SplitLines(ancestor), SplitLines(local), SplitLines(remote));
  }

  /** Within the ceiling: a one-sided edit round-trips, and the same edit twice is taken once. */
  lemma MergeIdentities(ancestor: string, x: string, maxCells: int)
    requires var o, a := SplitLines(ancestor), SplitLines(x); !TooLarge(o, a, o, maxCells)
    ensures Merge(ancestor, x, ancestor, maxCells) == Merged(x)
    ensures Merge(ancestor, ancestor, x, maxCells) == Merged(x)
    ensures Merge(ancestor, x, x, maxCells) == Merged(x)
  {
    var o, a := SplitLines(ancestor), SplitLines(x);
    JoinSplit(x);
    MergeRemoteUnchanged(o, a);
    MergeLocalUnchanged(o, a);
    MergeSameChange(o, a);
  }

  /** A merge is never empty of lines. */
  lemma MergedNotEmpty(o: seq<Line>, a: seq<Line>, b: seq<Line>)
    requires o != [] && a != [] && b != [] && MergeLines(o, a, b).Some?
    ensures MergeLines(o, a, b).value != []
  {
    var w := MergeSound(o, a, b);
    if w.Last? {
      assert w.block.o == o && w.block.a == a && w.block.b == b;
    }
  }

  /** The merged text splits into exactly the merged lines: joining hides and splits nothing. */
  lemma MergedTextSplits(ancestor: string, local: string, remote: string, maxCells: int)
    requires Merge(ancestor, local, remote, maxCells).Merged?
    ensures MergeLines(SplitLines(ancestor), SplitLines(local), SplitLines(remote)).Some?
    ensures SplitLines(Merge(ancestor, local, remote, maxCells).text)
         == MergeLines(SplitLines(ancestor), SplitLines(local), SplitLines(remote)).value
  {
    var o, a, b := SplitLines(ancestor), SplitLines(local), SplitLines(remote);
    var m := MergeLines(o, a, b).value;
    MergedNotEmpty(o, a, b);
    SplitGivesLines(local);
    SplitGivesLines(remote);
    forall l | l in m ensures OneLine(l) {
      MergeCombinesOnly(o, a, b, l);
    }
    SplitJoin(m);
  }

  /** A conflict means an oversized input or a slot both sides contest, and nothing else. */
  lemma ConflictIff(ancestor: string, local: string, remote: string, maxCells: int)
    ensures Merge(ancestor, local, remote, maxCells).Conflict? <==>
              var o, a, b := SplitLines(ancestor), SplitLines(local), SplitLines(remote);
              || (|o| + 1) * (|a| + 1) > maxCells || (|o| + 1) * (|b| + 1) > maxCells
              || exists s, e :: Contested(DiffSide(o, a), DiffSide(o, b), s, e)
  {
    hide SplitLines, JoinLines, MergeLines, Contested;
    MergeConflictIff(SplitLines(ancestor), SplitLines(local), SplitLines(remote));
  }
}
