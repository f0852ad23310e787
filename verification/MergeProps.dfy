/** What the merge promises: nothing lost, nothing invented, conflicts exactly where both sides collide. */
module MergeProps {

  import opened Text
  import opened Lcs
  import opened Hunks
  import opened Segments
  import opened MergeSpec
  import opened Options

  // ---- Soundness: the four texts are woven from the same blocks --------------------------------

  /** One slot as it reads in the ancestor, on each side and in the merge. */
  datatype Block = Block(o: seq<Line>, a: seq<Line>, b: seq<Line>, m: seq<Line>)

  /** Blocks with one untouched line, shared by all four texts, between neighbours. */
  datatype Weaving = Last(block: Block) | Then(block: Block, gap: Line, rest: Weaving)

  ghost function AncestorText(w: Weaving): seq<Line> {
    match w
    case Last(x) => x.o
    case Then(x, gap, rest) => x.o + [gap] + AncestorText(rest)
  }

  ghost function LocalText(w: Weaving): seq<Line> {
    match w
    case Last(x) => x.a
    case Then(x, gap, rest) => x.a + [gap] + LocalText(rest)
  }

  ghost function RemoteText(w: Weaving): seq<Line> {
    match w
    case Last(x) => x.b
    case Then(x, gap, rest) => x.b + [gap] + RemoteText(rest)
  }

  ghost function MergedText(w: Weaving): seq<Line> {
    match w
    case Last(x) => x.m
    case Then(x, gap, rest) => x.m + [gap] + MergedText(rest)
  }

  /**
   * The block merges without a guess: one side left it alone and the other's text is taken, or
   * both wrote the same text, or every line was left alone by one side and the other's line taken.
   */
  ghost predicate Clean(x: Block) {
    || (x.a == x.o && x.m == x.b)
    || (x.b == x.o && x.m == x.a)
    || (x.a == x.b && x.m == x.a)
    || (&& |x.o| == |x.a| == |x.b| == |x.m|
        && forall k :: 0 <= k < |x.o| ==>
             || (x.a[k] == x.o[k] && x.m[k] == x.b[k])
             || (x.b[k] == x.o[k] && x.m[k] == x.a[k]))
  }

  ghost predicate AllClean(w: Weaving) {
    match w
    case Last(x) => Clean(x)
    case Then(x, _, rest) => Clean(x) && AllClean(rest)
  }

  lemma ResolvedIsClean(a: Side, b: Side, p: nat, q: nat)
    requires Slot(a, b, p, q) && Resolve(a, b, p, q).Some?
    ensures Clean(Block(a.o[p..q], Segment(a, p, q), Segment(b, p, q), Resolve(a, b, p, q).value))
  {
    var lo, la, lb := a.o[p..q], Segment(a, p, q), Segment(b, p, q);
    if lb != lo && la != lo && la != lb {
      BalancedSpan(a, p, q);
      BalancedSpan(b, p, q);
      var m := Interleave(a, b, p, q);
      forall k | 0 <= k < |lo|
        ensures (la[k] == lo[k] && m[k] == lb[k]) || (lb[k] == lo[k] && m[k] == la[k])
      {
        assert lo[k] == a.o[p + k];
      }
    }
  }

  /** The side's text from slot start `p` on: the slot's segment, the gap line, and the rest. */
  lemma SideSplits(s: Side, p: nat, q: nat)
    requires Span(s, p, q)
    ensures 0 <= s.Start(p) <= |s.v|
    ensures q == |s.o| ==> s.v[s.Start(p)..] == Segment(s, p, q)
    ensures q < |s.o| ==>
              && 0 <= s.Start(q + 1) <= |s.v|
              && s.v[s.Start(p)..] == Segment(s, p, q) + [s.o[q]] + s.v[s.Start(q + 1)..]
  {
    SpanBounds(s, p, q);
  }

  lemma SlotStartBounds(a: Side, b: Side, p: nat)
    requires SlotStart(a, b, p)
    ensures 0 <= a.Start(p) <= |a.v| && 0 <= b.Start(p) <= |b.v|
    ensures p == 0 ==> a.Start(p) == 0 && b.Start(p) == 0
  {
    var q := SlotEnd(a, b, p);
    SpanBounds(a, p, q);
    SpanBounds(b, p, q);
  }

  lemma {:induction false} MergeWeaves(a: Side, b: Side, p: nat) returns (w: Weaving)
    requires SlotStart(a, b, p) && MergeFrom(a, b, p).Some?
    ensures 0 <= a.Start(p) <= |a.v| && 0 <= b.Start(p) <= |b.v|
    ensures AllClean(w)
    ensures AncestorText(w) == a.o[p..]
    ensures LocalText(w) == a.v[a.Start(p)..]
    ensures RemoteText(w) == b.v[b.Start(p)..]
    ensures MergedText(w) == MergeFrom(a, b, p).value
    decreases |a.o| - p
  {
    hide Script, Covered, Resolve, SlotEnd, Segment, Clean, DriftStart;
    var q := SlotEnd(a, b, p);
    SlotSpans(a, b, p, q);
    SideSplits(a, p, q);
    SideSplits(b, p, q);
    ResolvedIsClean(a, b, p, q);
    var x := Block(a.o[p..q], Segment(a, p, q), Segment(b, p, q), Resolve(a, b, p, q).value);
    if q == |a.o| {
      w := Last(x);
    } else {
      var rest := MergeWeaves(a, b, q + 1);
      w := Then(x, a.o[q], rest);
      assert a.o[p..] == a.o[p..q] + [a.o[q]] + a.o[q + 1..];
    }
  }

  /** A successful merge only ever combines: all four texts are woven from clean blocks. */
  lemma MergeSound(o: seq<Line>, a: seq<Line>, b: seq<Line>) returns (w: Weaving)
    requires MergeLines(o, a, b).Some?
    ensures AllClean(w)
    ensures AncestorText(w) == o && LocalText(w) == a && RemoteText(w) == b
    ensures MergedText(w) == MergeLines(o, a, b).value
  {
    var sa, sb := DiffSide(o, a), DiffSide(o, b);
    SlotStartBounds(sa, sb, 0);
    w := MergeWeaves(sa, sb, 0);
  }

  // ---- Conflicts: exactly the contested slots ----------------------------------------------------

  /** Both sides touched the slot, wrote different text, and not line for line on different lines. */
  ghost predicate Contested(a: Side, b: Side, p: nat, q: nat) {
    && Slot(a, b, p, q)
    && HasHunk(a.hs, p, q) && HasHunk(b.hs, p, q)
    && Segment(a, p, q) != Segment(b, p, q)
    && !OneForOne(a, b, p, q)
  }

  /** With optimal diffs, reading like the ancestor is the same as having no hunk in the slot. */
  lemma UntouchedIffEqual(s: Side, p: nat, q: nat)
    requires s.Optimal() && Span(s, p, q)
    ensures Segment(s, p, q) == s.o[p..q] <==> !HasHunk(s.hs, p, q)
  {
    if HasHunk(s.hs, p, q) {
      TouchedSpanDiffers(s, p, q);
    } else {
      QuietSpan(s, p, q);
    }
  }

  lemma ConflictIsContested(a: Side, b: Side, p: nat, q: nat)
    requires Slot(a, b, p, q) && a.Optimal() && b.Optimal()
    ensures Resolve(a, b, p, q).None? <==> Contested(a, b, p, q)
  {
    UntouchedIffEqual(a, p, q);
    UntouchedIffEqual(b, p, q);
  }

  lemma {:induction false} ConflictFrom(a: Side, b: Side, p: nat)
    requires SlotStart(a, b, p) && a.Optimal() && b.Optimal()
    ensures MergeFrom(a, b, p).None? <==> exists s, e :: p <= s && Contested(a, b, s, e)
    decreases |a.o| - p
  {
    hide Script, Covered, Resolve, SlotEnd, Segment;
    var q := SlotEnd(a, b, p);
    ConflictIsContested(a, b, p, q);
    if q < |a.o| {
      ConflictFrom(a, b, q + 1);
    }
    forall s, e | p < s && Contested(a, b, s, e) ensures q < s {
      NoSlotInside(a, b, p, q, s);
    }
    if Contested(a, b, p, q) {
      assert p <= p;
    }
  }

  /** A slot start lies at no other position of a slot. */
  lemma NoSlotInside(a: Side, b: Side, p: nat, q: nat, s: nat)
    requires Slot(a, b, p, q) && SlotStart(a, b, s) && p < s
    ensures q < s
  {
    assert s <= q ==> Covered(a.hs, s - 1) || Covered(b.hs, s - 1);
  }

  /** The merge fails if and only if some slot is contested. */
  lemma MergeConflictIff(o: seq<Line>, a: seq<Line>, b: seq<Line>)
    ensures MergeLines(o, a, b).None? <==> exists s, e :: Contested(DiffSide(o, a), DiffSide(o, b), s, e)
  {
    ConflictFrom(DiffSide(o, a), DiffSide(o, b), 0);
  }

  // ---- Merge laws --------------------------------------------------------------------------------

  /** If every slot resolves to the local text, the merge is the local text. */
  lemma {:induction false} AllLocal(a: Side, b: Side, p: nat)
    requires SlotStart(a, b, p)
    requires forall s, e :: p <= s && Slot(a, b, s, e) ==> Resolve(a, b, s, e) == Some(Segment(a, s, e))
    ensures 0 <= a.Start(p) <= |a.v|
    ensures MergeFrom(a, b, p) == Some(a.v[a.Start(p)..])
    decreases |a.o| - p
  {
    hide Script, Covered, Resolve, SlotEnd, Segment, DriftStart;
    var q := SlotEnd(a, b, p);
    assert Slot(a, b, p, q);
    SlotSpans(a, b, p, q);
    SideSplits(a, p, q);
    if q < |a.o| {
      AllLocal(a, b, q + 1);
    }
  }

  /** A text diffed against itself has no hunks. */
  lemma SelfDiff(o: seq<Line>)
    ensures Diff(o, o) == []
  {
    var s := DiffSide(o, o);
    LenRun(o, o, 0, 0, |o|);
    ScriptFirstBound(o, o, s.hs, 0, 0);
    ScriptNonEmpty(o, o, s.hs, 0, 0);
    CostFree(s.hs);
    DriftTotal(o, o, s.hs, 0, 0);
    NoDrift(s.hs, 0);
    assert s.hs != [] ==> HasHunk(s.hs, 0, |o|) by {
      assert s.hs != [] ==> s.hs[0] in s.hs;
    }
    InsertionsDrift(s.hs, 0, |o|);
  }

  lemma {:induction false} CostFree(hs: seq<Hunk>)
    ensures Cost(hs) == 0 ==> forall h :: h in hs ==> h.oLength == 0
  {
    if hs != [] {
      CostFree(hs[1..]);
      assert forall h :: h in hs ==> h == hs[0] || h in hs[1..];
    }
  }

  /** merge(O, L, O) = L: a one-sided edit is taken verbatim. */
  lemma MergeRemoteUnchanged(o: seq<Line>, a: seq<Line>)
    ensures MergeLines(o, a, o) == Some(a)
  {
    var sa, sb := DiffSide(o, a), DiffSide(o, o);
    SelfDiff(o);
    forall s, e | Slot(sa, sb, s, e) ensures Resolve(sa, sb, s, e) == Some(Segment(sa, s, e)) {
      QuietSpan(sb, s, e);
    }
    SlotStartBounds(sa, sb, 0);
    AllLocal(sa, sb, 0);
  }

  /** merge(O, O, R) = R. */
  lemma MergeLocalUnchanged(o: seq<Line>, b: seq<Line>)
    ensures MergeLines(o, o, b) == Some(b)
  {
    MergeLinesCommutes(o, o, b);
    MergeRemoteUnchanged(o, b);
  }

  /** merge(O, X, X) = X: the identical change is taken once. */
  lemma MergeSameChange(o: seq<Line>, x: seq<Line>)
    ensures MergeLines(o, x, x) == Some(x)
  {
    var s := DiffSide(o, x);
    SlotStartBounds(s, s, 0);
    AllLocal(s, s, 0);
  }

  // ---- Edits apart from each other always merge --------------------------------------------------

  /** At least one untouched ancestor line lies between the two hunks. */
  predicate Apart(h: Hunk, g: Hunk) {
    h.OEnd() < g.oStart || g.OEnd() < h.oStart
  }

  /** Position `x` is at the edge of, or inside, one of the hunks. */
  ghost predicate Reached(hs: seq<Hunk>, x: nat) {
    exists h :: h in hs && h.oStart <= x <= h.OEnd()
  }

  /** Along a slot of hunks that keep apart, only one side is ever reached. */
  lemma {:induction false} OneSideReached(a: Side, b: Side, p: nat, q: nat, x: nat)
    requires Slot(a, b, p, q) && p <= x <= q
    requires forall h, g :: h in a.hs && g in b.hs ==> Apart(h, g)
    requires Reached(a.hs, p)
    ensures !Reached(b.hs, x) && Reached(a.hs, x)
    decreases x
  {
    if x > p {
      OneSideReached(a, b, p, q, x - 1);
      assert Covered(a.hs, x - 1) || Covered(b.hs, x - 1);
      var before := x - 1;
      assert Covered(b.hs, before) ==> exists g :: g in b.hs && g.oStart <= before <= g.OEnd();
      var h :| h in a.hs && h.Covers(x - 1);
      assert Reached(a.hs, x);
    }
    var h :| h in a.hs && h.oStart <= x <= h.OEnd();
    forall g | g in b.hs ensures !(g.oStart <= x <= g.OEnd()) {
      assert Apart(h, g);
    }
  }

  lemma SlotReachedAtStart(a: Side, b: Side, p: nat, q: nat)
    requires Slot(a, b, p, q) && HasHunk(a.hs, p, q)
    ensures Reached(a.hs, p) || Reached(b.hs, p)
  {
    if p < q {
      assert Covered(a.hs, p) || Covered(b.hs, p);
    }
  }

  lemma ApartNotContested(a: Side, b: Side, p: nat, q: nat)
    requires Slot(a, b, p, q)
    requires forall h, g :: h in a.hs && g in b.hs ==> Apart(h, g)
    ensures !(HasHunk(a.hs, p, q) && HasHunk(b.hs, p, q))
  {
    if HasHunk(a.hs, p, q) && HasHunk(b.hs, p, q) {
      var h :| h in a.hs && p <= h.oStart <= q;
      var g :| g in b.hs && p <= g.oStart <= q;
      SlotReachedAtStart(a, b, p, q);
      if Reached(a.hs, p) {
        OneSideReached(a, b, p, q, g.oStart);
        assert Reached(b.hs, g.oStart);
      } else {
        SlotCommutes(a, b, p, q);
        assert forall h', g' :: h' in b.hs && g' in a.hs ==> Apart(g', h');
        OneSideReached(b, a, p, q, h.oStart);
        assert Reached(a.hs, h.oStart);
      }
    }
  }

  /** If an untouched line separates every local edit from every remote edit, the merge succeeds. */
  lemma SeparatedEditsMerge(o: seq<Line>, a: seq<Line>, b: seq<Line>)
    requires forall h, g :: h in Diff(o, a) && g in Diff(o, b) ==> Apart(h, g)
    ensures MergeLines(o, a, b).Some?
  {
    var sa, sb := DiffSide(o, a), DiffSide(o, b);
    MergeConflictIff(o, a, b);
    forall s, e | Slot(sa, sb, s, e) ensures !Contested(sa, sb, s, e) {
      ApartNotContested(sa, sb, s, e);
    }
  }

  // ---- Survival: every replacement is in the merge, in order ---------------------------------------

  /** The replacement of `h` stands in `m` at offset `at`. */
  ghost predicate Kept(a: Side, m: seq<Line>, h: Hunk, at: int) {
    && 0 <= at && at + h.abLength <= |m| && h.VEnd() <= |a.v|
    && m[at..at + h.abLength] == Replacement(h, a.v)
  }

  lemma SegmentHasHunk(s: Side, p: nat, q: nat, h: Hunk)
    requires Span(s, p, q) && h in s.hs && p <= h.oStart <= q
    ensures Kept(s, Segment(s, p, q), h, h.abStart - s.Start(p))
  {
    hide Script, DriftStart, DriftEnd, Covered;
    SpanBounds(s, p, q);
    HunkInSpan(s, p, q, h);
    var at := h.abStart - s.Start(p);
    var l := Segment(s, p, q);
    assert l == s.v[s.Start(p)..s.End(q)];
    SliceOfSlice(s.v, s.Start(p), s.End(q), at, at + h.abLength);
  }

  lemma InterleaveHasHunk(a: Side, b: Side, p: nat, q: nat, h: Hunk)
    requires Slot(a, b, p, q) && OneForOne(a, b, p, q) && h in a.hs && p <= h.oStart <= q
    ensures Kept(a, Interleave(a, b, p, q), h, h.abStart - a.Start(p))
  {
    hide Script, DriftStart, DriftEnd, Segment, SlotEnd;
    SegmentHasHunk(a, p, q, h);
    BalancedSpan(a, p, q);
    var m, l, at := Interleave(a, b, p, q), Segment(a, p, q), h.abStart - a.Start(p);
    forall k | at <= k < at + h.abLength ensures m[k] == l[k] {
      assert h.Covers(p + k);
    }
    assert m[at..at + h.abLength] == l[at..at + h.abLength];
  }

  /** In a resolved slot, a local hunk's replacement stands where it stands in the local segment. */
  lemma SlotKeepsHunk(a: Side, b: Side, p: nat, q: nat, h: Hunk)
    requires Slot(a, b, p, q) && a.Optimal() && b.Optimal()
    requires Resolve(a, b, p, q).Some? && h in a.hs && p <= h.oStart <= q
    ensures Kept(a, Resolve(a, b, p, q).value, h, h.abStart - a.Start(p))
  {
    hide Script, DriftStart, DriftEnd, Segment, SlotEnd, Kept, Interleave;
    SegmentHasHunk(a, p, q, h);
    TouchedSpanDiffers(a, p, q);
    if OneForOne(a, b, p, q) {
      InterleaveHasHunk(a, b, p, q, h);
    }
  }

  /** Where the merge from slot start `p` on puts the replacement of local hunk `h`. */
  ghost function Place(a: Side, b: Side, p: nat, h: Hunk): int
    requires SlotStart(a, b, p) && MergeFrom(a, b, p).Some?
    decreases |a.o| - p
  {
    var q := SlotEnd(a, b, p);
    if h.oStart <= q || q == |a.o| then h.abStart - a.Start(p)
    else |Resolve(a, b, p, q).value| + 1 + Place(a, b, q + 1, h)
  }

  lemma KeptInside(a: Side, m: seq<Line>, before: seq<Line>, after: seq<Line>, h: Hunk, at: int)
    requires Kept(a, m, h, at)
    ensures Kept(a, before + m + after, h, |before| + at)
  {
    var whole := before + m + after;
    assert m == whole[|before|..|before| + |m|];
    SliceOfSlice(whole, |before|, |before| + |m|, at, at + h.abLength);
  }

  lemma {:induction false} HunkKept(a: Side, b: Side, p: nat, h: Hunk)
    requires SlotStart(a, b, p) && a.Optimal() && b.Optimal() && MergeFrom(a, b, p).Some?
    requires h in a.hs && p <= h.oStart
    ensures Kept(a, MergeFrom(a, b, p).value, h, Place(a, b, p, h))
    decreases |a.o| - p
  {
    hide Script, Covered, Resolve, SlotEnd, Segment, DriftStart, Kept;
    var q := SlotEnd(a, b, p);
    var m := Resolve(a, b, p, q).value;
    ScriptFirstBound(a.o, a.v, a.hs, 0, 0);
    if h.oStart <= q {
      SlotKeepsHunk(a, b, p, q, h);
      var at := h.abStart - a.Start(p);
      if q < |a.o| {
        KeptInside(a, m, [], [a.o[q]] + MergeFrom(a, b, q + 1).value, h, at);
        assert [] + m + ([a.o[q]] + MergeFrom(a, b, q + 1).value) == MergeFrom(a, b, p).value;
      }
    } else {
      HunkKept(a, b, q + 1, h);
      var rest := MergeFrom(a, b, q + 1).value;
      KeptInside(a, rest, m + [a.o[q]], [], h, Place(a, b, q + 1, h));
      assert m + [a.o[q]] + rest + [] == MergeFrom(a, b, p).value;
    }
  }

  lemma {:induction false} HunksInOrder(a: Side, b: Side, p: nat, h: Hunk, g: Hunk)
    requires SlotStart(a, b, p) && a.Optimal() && b.Optimal() && MergeFrom(a, b, p).Some?
    requires h in a.hs && g in a.hs && p <= h.oStart < g.oStart && h.VEnd() < g.abStart
    ensures Place(a, b, p, h) + h.abLength <= Place(a, b, p, g)
    decreases |a.o| - p
  {
    hide Script, Covered, Resolve, SlotEnd, Segment, DriftStart;
    var q := SlotEnd(a, b, p);
    ScriptFirstBound(a.o, a.v, a.hs, 0, 0);
    if h.oStart <= q < g.oStart {
      SlotKeepsHunk(a, b, p, q, h);
      HunkKept(a, b, q + 1, g);
    } else if q < h.oStart {
      HunksInOrder(a, b, q + 1, h, g);
    }
  }

  /** Offsets at which the side's replacements stand in `m`, in order and without overlap. */
  ghost predicate Embedded(s: Side, m: seq<Line>, at: seq<int>) {
    && |at| == |s.hs|
    && (forall k :: 0 <= k < |s.hs| ==> Kept(s, m, s.hs[k], at[k]))
    && (forall k, l :: 0 <= k < l < |s.hs| ==> at[k] + s.hs[k].abLength <= at[l])
  }

  lemma PlacesInOrder(a: Side, b: Side, k: nat, l: nat)
    requires SlotStart(a, b, 0) && a.Optimal() && b.Optimal() && MergeFrom(a, b, 0).Some?
    requires k < l < |a.hs|
    ensures Place(a, b, 0, a.hs[k]) + a.hs[k].abLength <= Place(a, b, 0, a.hs[l])
  {
    hide Script, MergeFrom, Place;
    ScriptSorted(a.o, a.v, a.hs, 0, 0);
    HunksInOrder(a, b, 0, a.hs[k], a.hs[l]);
  }

  lemma SideSurvives(a: Side, b: Side) returns (at: seq<int>)
    requires SlotStart(a, b, 0) && a.Optimal() && b.Optimal() && MergeFrom(a, b, 0).Some?
    ensures Embedded(a, MergeFrom(a, b, 0).value, at)
  {
    hide Script, MergeFrom, Place, Kept;
    at := seq(|a.hs|, k requires 0 <= k < |a.hs| => Place(a, b, 0, a.hs[k]));
    var m := MergeFrom(a, b, 0).value;
    forall k | 0 <= k < |a.hs| ensures Kept(a, m, a.hs[k], at[k]) {
      HunkKept(a, b, 0, a.hs[k]);
    }
    forall k, l | 0 <= k < l < |a.hs| ensures at[k] + a.hs[k].abLength <= at[l] {
      PlacesInOrder(a, b, k, l);
    }
  }

  /** Zero silent overwrites: both sides' replacement lines survive a merge whole and in order. */
  lemma ReplacementsSurvive(o: seq<Line>, a: seq<Line>, b: seq<Line>) returns (atA: seq<int>, atB: seq<int>)
    requires MergeLines(o, a, b).Some?
    ensures Embedded(DiffSide(o, a), MergeLines(o, a, b).value, atA)
    ensures Embedded(DiffSide(o, b), MergeLines(o, a, b).value, atB)
  {
    var sa, sb := DiffSide(o, a), DiffSide(o, b);
    atA := SideSurvives(sa, sb);
    MergeLinesCommutes(o, a, b);
    atB := SideSurvives(sb, sa);
  }
}
