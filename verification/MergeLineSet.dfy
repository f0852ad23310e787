/** Exactly which lines a successful merge holds. */
module MergeLineSet {

  import opened Text
  import opened Lcs
  import opened Hunks
  import opened Segments
  import opened MergeSpec
  import opened Options
  import opened MergeProps

  // ---- Where a variant's line comes from -----------------------------------------------------

  /** Variant line `j` lies in a hunk's replacement. */
  ghost predicate Written(hs: seq<Hunk>, j: int) {
    exists h :: h in hs && h.abStart <= j < h.VEnd()
  }

  /** Every variant line is written by a hunk or is the image of an uncovered ancestor line. */
  lemma {:induction false} LineComesFrom(o: seq<Line>, v: seq<Line>, hs: seq<Hunk>, oc: nat, vc: nat, j: nat)
    returns (i: nat)
    requires Script(o, v, hs, oc, vc) && vc <= j < |v|
    ensures Written(hs, j) || (oc <= i < |o| && !Covered(hs, i) && j == vc - oc + i + DriftEnd(hs, i))
    decreases |hs|
  {
    i := 0;
    if hs == [] {
      i := oc + j - vc;
    } else {
      var h := hs[0];
      assert h in hs;
      RestStartsLater(o, v, hs, oc, vc);
      if j < h.abStart {
        i := oc + j - vc;
        NoDrift(hs, i);
        assert forall g :: g in hs ==> g == h || g in hs[1..];
      } else if h.VEnd() <= j {
        i := LineComesFrom(o, v, hs[1..], h.OEnd(), h.VEnd(), j);
        assert forall g :: g in hs ==> g == h || g in hs[1..];
        if Written(hs[1..], j) {
          assert forall g :: g in hs[1..] ==> g in hs;
        }
      }
    }
  }

  /** Within a span, the ancestor line behind an unwritten variant line is inside the span. */
  lemma SpanLineComesFrom(s: Side, p: nat, q: nat, j: nat) returns (i: nat)
    requires Span(s, p, q) && s.Start(p) <= j < s.End(q) && j < |s.v|
    ensures Written(s.hs, j) || (p <= i < q && !Covered(s.hs, i) && s.o[i] == s.v[j])
  {
    i := LineComesFrom(s.o, s.v, s.hs, 0, 0, j);
    if !Written(s.hs, j) {
      ImageFrom(s.o, s.v, s.hs, 0, 0, i);
      SpanCuts(s, p, q);
      ScriptFirstBound(s.o, s.v, s.hs, 0, 0);
      assert Span(s, 0, i) by { assert s.EdgeAfter(i); }
      SpanCuts(s, 0, i);
      SpanBounds(s, 0, i);
      assert Cut(s.hs, i + 1) by { assert forall h :: h in s.hs ==> !h.Covers(i); }
      if i < p {
        StartMonotone(s.o, s.v, s.hs, 0, 0, i + 1, p);
      }
      if q < i {
        SpanBounds(s, p, q);
        assert Cut(s.hs, q + 1) by { assert forall h :: h in s.hs ==> !h.Covers(q); }
        StartMonotone(s.o, s.v, s.hs, 0, 0, q + 1, i);
        EndAfterStart(s.hs, i);
      }
    }
  }

  // ---- The line set ------------------------------------------------------------------------------

  ghost predicate InReplacement(s: Side, x: Line)
    requires s.Valid()
  {
    exists j :: 0 <= j < |s.v| && Written(s.hs, j) && s.v[j] == x
  }

  ghost predicate InGap(a: Side, b: Side, x: Line)
    requires a.o == b.o
  {
    exists i :: 0 <= i < |a.o| && !Covered(a.hs, i) && !Covered(b.hs, i) && a.o[i] == x
  }

  ghost predicate InAgreedSlot(a: Side, b: Side, x: Line)
  {
    exists p, q :: Slot(a, b, p, q) && Segment(a, p, q) == Segment(b, p, q) && x in Segment(a, p, q)
  }

  /**
   * The line stands in a gap, in a replacement of either side, or in a slot both sides left with
   * the same text.
   */
  ghost predicate Contributed(a: Side, b: Side, x: Line)
    requires Sides(a, b)
  {
    InGap(a, b, x) || InReplacement(a, x) || InReplacement(b, x) || InAgreedSlot(a, b, x)
  }

  /** In a slot the other side did not touch, every line of the segment is written. */
  lemma LoneSegmentWritten(a: Side, b: Side, p: nat, q: nat, x: Line)
    requires Slot(a, b, p, q) && !HasHunk(b.hs, p, q) && x in Segment(a, p, q)
    ensures InReplacement(a, x)
  {
    SpanBounds(a, p, q);
    SpanCuts(b, p, q);
    var k :| 0 <= k < |Segment(a, p, q)| && Segment(a, p, q)[k] == x;
    var j := a.Start(p) + k;
    assert a.v[j] == x;
    var _ := SpanLineComesFrom(a, p, q, j);
    assert forall h :: h in b.hs ==> h.OEnd() <= p || q < h.oStart;
    assert forall i :: p <= i < q ==> Covered(a.hs, i);
  }

  lemma InterleavedWritten(a: Side, b: Side, p: nat, q: nat, k: nat)
    requires Slot(a, b, p, q) && OneForOne(a, b, p, q) && k < q - p && Covered(a.hs, p + k)
    ensures |Segment(a, p, q)| == q - p && InReplacement(a, Segment(a, p, q)[k])
  {
    hide Script, DriftStart, DriftEnd;
    SpanBounds(a, p, q);
    BalancedSpan(a, p, q);
    SpanCuts(a, p, q);
    var h :| h in a.hs && h.Covers(p + k);
    assert p <= h.oStart <= q;
    var j := a.Start(p) + k;
    assert h.abStart <= j < h.VEnd();
    assert Written(a.hs, j);
    assert a.v[j] == Segment(a, p, q)[k];
  }

  lemma ResolvedLineContributed(a: Side, b: Side, p: nat, q: nat, x: Line)
    requires Slot(a, b, p, q) && a.Optimal() && b.Optimal()
    requires Resolve(a, b, p, q).Some? && x in Resolve(a, b, p, q).value
    ensures Contributed(a, b, x)
  {
    hide Script, SlotEnd, Covered, InReplacement, InGap;
    UntouchedIffEqual(a, p, q);
    UntouchedIffEqual(b, p, q);
    SlotCommutes(a, b, p, q);
    if !HasHunk(b.hs, p, q) {
      LoneSegmentWritten(a, b, p, q, x);
    } else if !HasHunk(a.hs, p, q) {
      LoneSegmentWritten(b, a, p, q, x);
    } else if Segment(a, p, q) != Segment(b, p, q) {
      var m := Interleave(a, b, p, q);
      var k :| 0 <= k < |m| && m[k] == x;
      assert Covered(a.hs, p + k) || Covered(b.hs, p + k);
      if Covered(a.hs, p + k) {
        InterleavedWritten(a, b, p, q, k);
      } else {
        assert OneForOne(b, a, p, q);
        InterleavedWritten(b, a, p, q, k);
      }
    }
  }

  lemma {:induction false} MergedLineContributed(a: Side, b: Side, p: nat, x: Line)
    requires SlotStart(a, b, p) && a.Optimal() && b.Optimal()
    requires MergeFrom(a, b, p).Some? && x in MergeFrom(a, b, p).value
    ensures Contributed(a, b, x)
    decreases |a.o| - p
  {
    hide Script, SlotEnd, Resolve, InReplacement, InAgreedSlot;
    var q := SlotEnd(a, b, p);
    var m := Resolve(a, b, p, q).value;
    if x in m {
      ResolvedLineContributed(a, b, p, q, x);
    } else if x == a.o[q] {
      assert InGap(a, b, x);
    } else {
      MergedLineContributed(a, b, q + 1, x);
    }
  }

  /** The merge holds the resolved text of each of its slots, and each gap line. */
  lemma {:induction false} SlotInMerge(a: Side, b: Side, p: nat, s: nat, e: nat, x: Line)
    requires SlotStart(a, b, p) && MergeFrom(a, b, p).Some?
    requires Slot(a, b, s, e) && p <= s
    requires Resolve(a, b, s, e).Some? ==> x in Resolve(a, b, s, e).value
    ensures Resolve(a, b, s, e).Some? && x in MergeFrom(a, b, p).value
    decreases |a.o| - p
  {
    hide Script, Resolve, SlotEnd, Covered;
    var q := SlotEnd(a, b, p);
    if p < s {
      NoSlotInside(a, b, p, q, s);
      SlotInMerge(a, b, q + 1, s, e, x);
    }
  }

  lemma {:induction false} GapInMerge(a: Side, b: Side, p: nat, i: nat)
    requires SlotStart(a, b, p) && MergeFrom(a, b, p).Some?
    requires p <= i < |a.o| && !Covered(a.hs, i) && !Covered(b.hs, i)
    ensures a.o[i] in MergeFrom(a, b, p).value
    decreases |a.o| - p
  {
    hide Script, Resolve;
    var q := SlotEnd(a, b, p);
    if q < i {
      GapInMerge(a, b, q + 1, i);
    }
  }

  lemma WrittenInMerge(a: Side, b: Side, j: nat)
    requires SlotStart(a, b, 0) && a.Optimal() && b.Optimal() && MergeFrom(a, b, 0).Some?
    requires j < |a.v| && Written(a.hs, j)
    ensures a.v[j] in MergeFrom(a, b, 0).value
  {
    hide Script, MergeFrom, Place;
    var h :| h in a.hs && h.abStart <= j < h.VEnd();
    HunkKept(a, b, 0, h);
    var m, at := MergeFrom(a, b, 0).value, Place(a, b, 0, h);
    assert a.v[j] == Replacement(h, a.v)[j - h.abStart] == m[at..at + h.abLength][j - h.abStart];
  }

  lemma ContributedInMerge(a: Side, b: Side, x: Line)
    requires SlotStart(a, b, 0) && a.Optimal() && b.Optimal() && MergeFrom(a, b, 0).Some?
    requires Contributed(a, b, x)
    ensures x in MergeFrom(a, b, 0).value
  {
    hide Script, MergeFrom, SlotEnd, Covered, Written;
    if InGap(a, b, x) {
      var i :| 0 <= i < |a.o| && !Covered(a.hs, i) && !Covered(b.hs, i) && a.o[i] == x;
      GapInMerge(a, b, 0, i);
    } else if InReplacement(a, x) {
      var j :| 0 <= j < |a.v| && Written(a.hs, j) && a.v[j] == x;
      WrittenInMerge(a, b, j);
    } else if InReplacement(b, x) {
      var j :| 0 <= j < |b.v| && Written(b.hs, j) && b.v[j] == x;
      MergeCommutes(a, b, 0);
      WrittenInMerge(b, a, j);
    } else {
      var p, q :| Slot(a, b, p, q) && Segment(a, p, q) == Segment(b, p, q) && x in Segment(a, p, q);
      SlotInMerge(a, b, 0, p, q, x);
    }
  }

  /** The set of lines of a successful merge. */
  lemma MergedLines(o: seq<Line>, a: seq<Line>, b: seq<Line>, x: Line)
    requires MergeLines(o, a, b).Some?
    ensures x in MergeLines(o, a, b).value <==> Contributed(DiffSide(o, a), DiffSide(o, b), x)
  {
    hide Script, MergeFrom, Contributed;
    var sa, sb := DiffSide(o, a), DiffSide(o, b);
    if x in MergeLines(o, a, b).value {
      MergedLineContributed(sa, sb, 0, x);
    }
    if Contributed(sa, sb, x) {
      ContributedInMerge(sa, sb, x);
    }
  }

  lemma SegmentFromVariant(s: Side, p: nat, q: nat, x: Line)
    requires Span(s, p, q) && x in Segment(s, p, q)
    ensures x in s.v
  {
    SpanBounds(s, p, q);
  }

  /** A merge invents no line, and keeps every line a side added. */
  lemma MergeCombinesOnly(o: seq<Line>, a: seq<Line>, b: seq<Line>, x: Line)
    requires MergeLines(o, a, b).Some?
    ensures x in MergeLines(o, a, b).value ==> x in a || x in b
    ensures x !in o && (x in a || x in b) ==> x in MergeLines(o, a, b).value
  {
    var sa, sb := DiffSide(o, a), DiffSide(o, b);
    MergedLines(o, a, b, x);
    if x in MergeLines(o, a, b).value {
      ContributedIsPresent(sa, sb, x);
    }
    if x !in o && x in a {
      AddedIsWritten(sa, x);
    }
    if x !in o && x in b {
      AddedIsWritten(sb, x);
    }
  }

  lemma ContributedIsPresent(a: Side, b: Side, x: Line)
    requires Sides(a, b) && Contributed(a, b, x)
    ensures x in a.v || x in b.v
  {
    if InGap(a, b, x) {
      var i :| 0 <= i < |a.o| && !Covered(a.hs, i) && !Covered(b.hs, i) && a.o[i] == x;
      ImageFrom(a.o, a.v, a.hs, 0, 0, i);
    } else if InAgreedSlot(a, b, x) {
      var p, q :| Slot(a, b, p, q) && Segment(a, p, q) == Segment(b, p, q) && x in Segment(a, p, q);
      SegmentFromVariant(a, p, q, x);
    }
  }

  lemma AddedIsWritten(s: Side, x: Line)
    requires s.Valid() && x in s.v && x !in s.o
    ensures InReplacement(s, x)
  {
    var j :| 0 <= j < |s.v| && s.v[j] == x;
    var i := LineComesFrom(s.o, s.v, s.hs, 0, 0, j);
    if !Written(s.hs, j) {
      ImageFrom(s.o, s.v, s.hs, 0, 0, i);
    }
  }

  // ---- A line both sides kept ---------------------------------------------------------------------

  /** Where a line occurs in a text. */
  function Occurrences(text: seq<Line>, x: Line): set<int> {
    set i: int | 0 <= i < |text| && text[i] == x
  }

  /** Where it occurs in the ancestor and this side's diff leaves it in place. */
  ghost function KeptAt(s: Side, x: Line): set<int> {
    set i: int | 0 <= i < |s.o| && s.o[i] == x && !Covered(s.hs, i)
  }

  /** The variant indices of a set of ancestor lines. */
  ghost function Images(hs: seq<Hunk>, at: set<int>): set<int> {
    set i: int | i in at && 0 <= i :: i + DriftEnd(hs, i)
  }

  lemma {:induction false} ImageCount(hs: seq<Hunk>, at: set<int>)
    ensures |Images(hs, at)| <= |at|
    decreases |at|
  {
    if i: int :| i in at {
      ImageCount(hs, at - {i});
      var rest := Images(hs, at - {i});
      if 0 <= i {
        assert Images(hs, at) == rest + {i + DriftEnd(hs, i)};
      } else {
        assert Images(hs, at) == rest;
      }
    } else {
      assert Images(hs, at) == {};
    }
  }

  /** A side that writes no `x` has at most as many as it leaves in place. */
  lemma UnwrittenOccurrences(s: Side, x: Line)
    requires s.Valid() && !InReplacement(s, x)
    ensures |Occurrences(s.v, x)| <= |KeptAt(s, x)|
  {
    var images := Images(s.hs, KeptAt(s, x));
    forall j | j in Occurrences(s.v, x) ensures j in images {
      var i := LineComesFrom(s.o, s.v, s.hs, 0, 0, j);
      ImageFrom(s.o, s.v, s.hs, 0, 0, i);
      assert i in KeptAt(s, x);
    }
    SubsetCount(Occurrences(s.v, x), images);
    ImageCount(s.hs, KeptAt(s, x));
  }

  lemma {:induction false} SubsetCount<T>(small: set<T>, large: set<T>)
    requires small <= large
    ensures |small| <= |large|
    decreases |small|
  {
    if x :| x in small {
      SubsetCount(small - {x}, large - {x});
    } else {
      assert small == {};
    }
  }

  /** Two subsets with more elements together than the whole set share one. */
  lemma TooMany(a: set<int>, b: set<int>, all: set<int>)
    requires a <= all && b <= all && |a| + |b| > |all|
    ensures a * b != {}
  {
    SubsetCount(a + b, all);
    assert |a + b| == |a| + |b| - |a * b|;
  }

  /** An ancestor line only the second side's diff replaces. */
  ghost predicate OnlyTheirs(mine: Side, theirs: Side, i: int) {
    !Covered(mine.hs, i) && Covered(theirs.hs, i)
  }

  /** The side still has `x` at an ancestor line of it that the merge does not copy. */
  lemma KeptElsewhere(mine: Side, theirs: Side, x: Line) returns (i: int)
    requires Sides(mine, theirs) && x in mine.v && !InReplacement(mine, x) && !InGap(mine, theirs, x)
    ensures 0 <= i < |mine.o| && mine.o[i] == x && OnlyTheirs(mine, theirs, i)
  {
    var j :| 0 <= j < |mine.v| && mine.v[j] == x;
    i := LineComesFrom(mine.o, mine.v, mine.hs, 0, 0, j);
    ImageFrom(mine.o, mine.v, mine.hs, 0, 0, i);
  }

  /**
   * A line all three texts contain is lost exactly if every occurrence in the ancestor is replaced by a side,
   * neither side writes it anew, and no slot both sides read alike holds it. The two sides then replaced
   * different occurrences: one is left in place by local alone and one by remote alone.
   */
  lemma KeptLineSurvivesIff(o: seq<Line>, a: seq<Line>, b: seq<Line>, x: Line)
    requires MergeLines(o, a, b).Some? && x in o && x in a && x in b
    ensures var sa, sb := DiffSide(o, a), DiffSide(o, b);
            x !in MergeLines(o, a, b).value <==>
              && (forall i :: 0 <= i < |o| && o[i] == x ==> Covered(sa.hs, i) || Covered(sb.hs, i))
              && !InReplacement(sa, x) && !InReplacement(sb, x) && !InAgreedSlot(sa, sb, x)
    ensures var sa, sb := DiffSide(o, a), DiffSide(o, b);
            x !in MergeLines(o, a, b).value ==>
              && (exists i :: 0 <= i < |o| && o[i] == x && OnlyTheirs(sa, sb, i))
              && (exists j :: 0 <= j < |o| && o[j] == x && OnlyTheirs(sb, sa, j))
  {
    MergedLines(o, a, b, x);
    var sa, sb := DiffSide(o, a), DiffSide(o, b);
    if x !in MergeLines(o, a, b).value {
      var i := KeptElsewhere(sa, sb, x);
      var j := KeptElsewhere(sb, sa, x);
    }
  }

  /**
   * A condition on the three texts alone: a line that the two sides together hold more often than the ancestor
   * does always survives. A line that occurs once in the ancestor and is present on both sides is such a line.
   */
  lemma FrequentLineSurvives(o: seq<Line>, a: seq<Line>, b: seq<Line>, x: Line)
    requires MergeLines(o, a, b).Some?
    requires |Occurrences(a, x)| + |Occurrences(b, x)| > |Occurrences(o, x)|
    ensures x in MergeLines(o, a, b).value
  {
    MergedLines(o, a, b, x);
    var sa, sb := DiffSide(o, a), DiffSide(o, b);
    if !InReplacement(sa, x) && !InReplacement(sb, x) {
      UnwrittenOccurrences(sa, x);
      UnwrittenOccurrences(sb, x);
      TooMany(KeptAt(sa, x), KeptAt(sb, x), Occurrences(o, x));
      var i :| i in KeptAt(sa, x) * KeptAt(sb, x);
      assert InGap(sa, sb, x);
    }
  }

  lemma SingleLineSurvives(o: seq<Line>, a: seq<Line>, b: seq<Line>, x: Line, at: nat)
    requires MergeLines(o, a, b).Some? && x in a && x in b
    requires at < |o| && o[at] == x && forall i :: 0 <= i < |o| && i != at ==> o[i] != x
    ensures x in MergeLines(o, a, b).value
  {
    var i :| 0 <= i < |a| && a[i] == x;
    var j :| 0 <= j < |b| && b[j] == x;
    SubsetCount({i}, Occurrences(a, x));
    SubsetCount({j}, Occurrences(b, x));
    assert Occurrences(o, x) == {at};
    FrequentLineSurvives(o, a, b, x);
  }

  lemma LostLocalHunks()
    ensures Diff(["x", "m", "x"], ["m", "x"]) == [Hunk(0, 1, 0, 0)]
  {
    var o, a := ["x", "m", "x"], ["m", "x"];
    var ms := [Match(1, 0), Match(2, 1)];
    assert Len(o, a, 1, 0) == 2 by { assert Len(o, a, 2, 1) == 1; }
    assert Len(o, a, 0, 1) <= 1 by { LenStep(o, a, 0, 1); }
    assert Walk(o, a, 2, 1) == [Match(2, 1)];
    assert Walk(o, a, 1, 0) == ms;
    assert Walk(o, a, 0, 0) == ms;
    WalkIsCommon(o, a, 0, 0);
    CommonAligned(o, a, ms, 0, 0, 0);
    assert HunksFrom(o, a, ms, 2, 3, 2) == [];
    assert HunksFrom(o, a, ms, 1, 2, 1) == [];
  }

  lemma LostRemoteHunks()
    ensures Diff(["x", "m", "x"], ["x", "m"]) == [Hunk(2, 1, 2, 0)]
  {
    var o, b := ["x", "m", "x"], ["x", "m"];
    var ms := [Match(0, 0), Match(1, 1)];
    assert Walk(o, b, 1, 1) == [Match(1, 1)];
    assert Walk(o, b, 0, 0) == ms;
    WalkIsCommon(o, b, 0, 0);
    CommonAligned(o, b, ms, 0, 0, 0);
    assert HunksFrom(o, b, ms, 2, 2, 2) == [Hunk(2, 1, 2, 0)];
    assert HunksFrom(o, b, ms, 1, 1, 1) == [Hunk(2, 1, 2, 0)];
  }

  lemma OneHunk(h: Hunk, p: nat)
    ensures DriftEnd([h], p) == if h.OEnd() <= p then h.Delta() else 0
    ensures DriftStart([h], p) == if h.OEnd() <= p && h.oStart < p then h.Delta() else 0
    ensures Covered([h], p) <==> h.Covers(p)
    ensures forall q :: HasHunk([h], p, q) <==> p <= h.oStart <= q
  {
    assert [h][1..] == [] && h in [h];
  }

  /** A side that deletes exactly the lines of a span leaves nothing there. */
  lemma DeletedSpan(s: Side, h: Hunk)
    requires s.Valid() && s.hs == [h] && h.abLength == 0 && Span(s, h.oStart, h.OEnd())
    ensures Segment(s, h.oStart, h.OEnd()) == []
  {
    OneHunk(h, h.oStart);
    OneHunk(h, h.OEnd());
    SpanBounds(s, h.oStart, h.OEnd());
  }

  /** "x, m, x" with the first x deleted locally and the last remotely merges to "m". */
  lemma KeptLineLost()
    ensures MergeLines(["x", "m", "x"], ["m", "x"], ["x", "m"]) == Some(["m"])
  {
    hide Script, Diff, Len, Segment, DriftStart, DriftEnd, Covered, HasHunk, SlotEnd, Interleave, OneForOne;
    var o := ["x", "m", "x"];
    var sa, sb := DiffSide(o, ["m", "x"]), DiffSide(o, ["x", "m"]);
    LostLocalHunks();
    LostRemoteHunks();
    var h, g := Hunk(0, 1, 0, 0), Hunk(2, 1, 2, 0);
    OneHunk(h, 0); OneHunk(h, 1); OneHunk(h, 2);
    OneHunk(g, 0); OneHunk(g, 1); OneHunk(g, 2);
    SlotEndUnique(sa, sb, 0, 1);
    SlotEndUnique(sa, sb, 2, 3);
    DeletedSpan(sa, h);
    QuietSpan(sb, 0, 1);
    QuietSpan(sa, 2, 3);
    DeletedSpan(sb, g);
    assert MergeFrom(sa, sb, 2) == Some([]);
    assert Resolve(sa, sb, 0, 1) == Some([]);
    assert [] + [o[1]] + [] == ["m"];
    assert MergeFrom(sa, sb, 0) == Some(["m"]);
  }
}
