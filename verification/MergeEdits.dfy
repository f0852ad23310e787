/** The merge of texts whose sides rewrote single lines: which edits go together, and which conflict. */
module MergeEdits {

  import opened Text
  import opened Lcs
  import opened Hunks
  import opened Segments
  import opened MergeSpec
  import opened MergeProps
  import opened Options

  ghost predicate Distinct(o: seq<Line>) {
    forall i, j :: 0 <= i < j < |o| ==> o[i] != o[j]
  }

  /** `v` is `o` with some lines replaced in place by lines `o` does not have. */
  ghost predicate Rewrites(o: seq<Line>, v: seq<Line>) {
    Distinct(o) && |v| == |o| && forall i :: 0 <= i < |o| ==> v[i] == o[i] || v[i] !in o
  }

  // ---- The diff of such a text ---------------------------------------------------------------------

  /** An ancestor line found in the variant stands at its own index. */
  lemma SameIndex(o: seq<Line>, v: seq<Line>, i: nat, j: nat)
    requires Rewrites(o, v) && i < |o| && j < |v| && o[i] == v[j]
    ensures i == j
  {
    assert v[j] in o;
  }

  ghost predicate InPlace(h: Hunk) {
    h.abStart == h.oStart && h.abLength == h.oLength > 0
  }

  lemma {:induction false} HunksInPlace(o: seq<Line>, v: seq<Line>, hs: seq<Hunk>, c: nat)
    requires Rewrites(o, v) && Script(o, v, hs, c, c)
    ensures forall h :: h in hs ==> InPlace(h)
    decreases |hs|
  {
    if hs != [] {
      var h, rest := hs[0], hs[1..];
      if h.OEnd() < |o| {
        NextIsCopied(o, v, hs, c, c);
        SameIndex(o, v, h.OEnd(), h.VEnd());
      } else {
        NothingAfter(o, v, hs, c, c);
      }
      HunksInPlace(o, v, rest, h.OEnd());
      assert forall g :: g in hs ==> g == h || g in rest;
    }
  }

  /** The line after a hunk is copied. */
  lemma NextIsCopied(o: seq<Line>, v: seq<Line>, hs: seq<Hunk>, oc: nat, vc: nat)
    requires Script(o, v, hs, oc, vc) && hs != [] && hs[0].OEnd() < |o|
    ensures hs[0].VEnd() < |v| && o[hs[0].OEnd()] == v[hs[0].VEnd()]
  {
    var h, rest := hs[0], hs[1..];
    assert Script(o, v, rest, h.OEnd(), h.VEnd());
    assert rest != [] ==> rest[0] == hs[1];
  }

  lemma NothingAfter(o: seq<Line>, v: seq<Line>, hs: seq<Hunk>, oc: nat, vc: nat)
    requires Script(o, v, hs, oc, vc) && hs != [] && hs[0].OEnd() == |o|
    ensures hs[0].VEnd() == |v|
  {
    hide Script;
    var first, last := hs[0], hs[|hs| - 1];
    assert last in hs;
    ScriptSorted(o, v, hs, oc, vc);
    ScriptFirstBound(o, v, hs, oc, vc);
    assert |hs| > 1 ==> first.OEnd() < last.oStart;
    LastHunk(o, v, hs, oc, vc);
  }

  lemma LastHunk(o: seq<Line>, v: seq<Line>, hs: seq<Hunk>, oc: nat, vc: nat)
    requires Script(o, v, hs, oc, vc) && |hs| == 1
    ensures |o| - hs[0].OEnd() == |v| - hs[0].VEnd()
  {
    assert hs[1..] == [];
    EmptyScript(o, v, hs[0].OEnd(), hs[0].VEnd());
  }

  lemma EmptyScript(o: seq<Line>, v: seq<Line>, oc: nat, vc: nat)
    requires Script(o, v, [], oc, vc)
    ensures |o| - oc == |v| - vc
  {
  }

  /** How many of the lines from `lo` up to `hi` were replaced. */
  ghost function Replaced(o: seq<Line>, v: seq<Line>, lo: nat, hi: nat): nat
    requires lo <= hi <= |o| && hi <= |v|
    decreases hi - lo
  {
    if lo == hi then 0 else (if o[lo] == v[lo] then 0 else 1) + Replaced(o, v, lo + 1, hi)
  }

  lemma {:induction false} ReplacedSplits(o: seq<Line>, v: seq<Line>, lo: nat, mid: nat, hi: nat)
    requires lo <= mid <= hi <= |o| && hi <= |v|
    ensures Replaced(o, v, lo, hi) == Replaced(o, v, lo, mid) + Replaced(o, v, mid, hi)
    decreases mid - lo
  {
    if lo < mid { ReplacedSplits(o, v, lo + 1, mid, hi); }
  }

  lemma {:induction false} ReplacedBound(o: seq<Line>, v: seq<Line>, lo: nat, hi: nat)
    requires lo <= hi <= |o| && hi <= |v|
    ensures Replaced(o, v, lo, hi) <= hi - lo
    ensures (exists k :: lo <= k < hi && o[k] == v[k]) ==> Replaced(o, v, lo, hi) < hi - lo
    ensures (forall k :: lo <= k < hi ==> o[k] == v[k]) ==> Replaced(o, v, lo, hi) == 0
    decreases hi - lo
  {
    if lo < hi { ReplacedBound(o, v, lo + 1, hi); }
  }

  /** Keeping every unreplaced line is a common subsequence. */
  lemma {:induction false} UnreplacedFit(o: seq<Line>, v: seq<Line>, k: nat)
    requires |o| == |v| && k <= |o|
    ensures |o| - k - Replaced(o, v, k, |o|) <= Len(o, v, k, k)
    decreases |o| - k
  {
    if k < |o| {
      UnreplacedFit(o, v, k + 1);
      LenMonotone(o, v, k, k, k + 1, k + 1);
    }
  }

  /** A script of in-place hunks costs at least the replaced lines, and more if it covers another. */
  lemma {:induction false} InPlaceCost(o: seq<Line>, v: seq<Line>, hs: seq<Hunk>, c: nat)
    requires |o| == |v| && Script(o, v, hs, c, c) && forall h :: h in hs ==> InPlace(h)
    ensures Replaced(o, v, c, |o|) <= Cost(hs)
    ensures (exists k :: 0 <= k < |o| && Covered(hs, k) && o[k] == v[k]) ==> Replaced(o, v, c, |o|) < Cost(hs)
    decreases |hs|
  {
    if hs == [] {
      ReplacedBound(o, v, c, |o|);
    } else {
      var h, rest := hs[0], hs[1..];
      assert h in hs && InPlace(h);
      assert forall g :: g in rest ==> g in hs;
      assert forall g :: g in hs ==> g == h || g in rest;
      InPlaceCost(o, v, rest, h.OEnd());
      ReplacedSplits(o, v, c, h.oStart, |o|);
      ReplacedSplits(o, v, h.oStart, h.OEnd(), |o|);
      ReplacedBound(o, v, c, h.oStart);
      ReplacedBound(o, v, h.oStart, h.OEnd());
    }
  }

  /** The diff of a rewritten text: one-for-one hunks in place, covering exactly the replaced lines. */
  lemma RewriteDiff(o: seq<Line>, v: seq<Line>)
    requires Rewrites(o, v)
    ensures forall h :: h in Diff(o, v) ==> InPlace(h)
    ensures forall k :: 0 <= k < |o| ==> (Covered(Diff(o, v), k) <==> o[k] != v[k])
    ensures forall p :: DriftStart(Diff(o, v), p) == DriftEnd(Diff(o, v), p) == 0
  {
    var hs := Diff(o, v);
    DiffIsOptimalScript(o, v);
    HunksInPlace(o, v, hs, 0);
    InPlaceCost(o, v, hs, 0);
    UnreplacedFit(o, v, 0);
    forall p: nat ensures DriftStart(hs, p) == DriftEnd(hs, p) == 0 { NoDeltaNoDrift(hs, p); }
    forall k | 0 <= k < |o| && !Covered(hs, k) ensures o[k] == v[k] {
      ImageFrom(o, v, hs, 0, 0, k);
    }
  }

  lemma {:induction false} NoDeltaNoDrift(hs: seq<Hunk>, p: nat)
    requires forall h :: h in hs ==> h.Delta() == 0
    ensures DriftStart(hs, p) == DriftEnd(hs, p) == 0
  {
    if hs != [] {
      assert hs[0] in hs && forall h :: h in hs[1..] ==> h in hs;
      NoDeltaNoDrift(hs[1..], p);
    }
  }

  // ---- Neighbouring edits go together -----------------------------------------------------------------

  /** Line by line, the rewritten line of whichever side rewrote it. */
  function Combined(o: seq<Line>, a: seq<Line>, b: seq<Line>): (m: seq<Line>)
    requires |a| == |o| && |b| == |o|
    ensures |m| == |o|
  {
    seq(|o|, i requires 0 <= i < |o| => if a[i] != o[i] then a[i] else b[i])
  }

  /** Both sides are rewrites, and no line is rewritten by both. */
  ghost predicate Disjoint(o: seq<Line>, a: seq<Line>, b: seq<Line>) {
    Rewrites(o, a) && Rewrites(o, b) && forall i :: 0 <= i < |o| ==> a[i] == o[i] || b[i] == o[i]
  }

  lemma SegmentInPlace(o: seq<Line>, v: seq<Line>, p: nat, q: nat)
    requires Rewrites(o, v) && Span(DiffSide(o, v), p, q)
    ensures q <= |v| && Segment(DiffSide(o, v), p, q) == v[p..q]
  {
    hide Script, Covered, Rewrites;
    RewriteDiff(o, v);
    SpanBounds(DiffSide(o, v), p, q);
  }

  lemma DisjointIsOneForOne(o: seq<Line>, a: seq<Line>, b: seq<Line>, p: nat, q: nat)
    requires Disjoint(o, a, b) && p <= q <= |o|
    ensures OneForOne(DiffSide(o, a), DiffSide(o, b), p, q)
  {
    RewriteDiff(o, a);
    RewriteDiff(o, b);
    hide Covered, Rewrites;
  }

  lemma CombinedSlice(o: seq<Line>, a: seq<Line>, b: seq<Line>, p: nat, q: nat)
    requires |a| == |o| && |b| == |o| && p <= q <= |o|
    ensures Combined(o, a, b)[p..q] == Combined(o[p..q], a[p..q], b[p..q])
  {
  }

  lemma CombinedCases(lo: seq<Line>, la: seq<Line>, lb: seq<Line>)
    requires |la| == |lo| && |lb| == |lo| && forall k :: 0 <= k < |lo| ==> la[k] == lo[k] || lb[k] == lo[k]
    ensures lb == lo ==> Combined(lo, la, lb) == la
    ensures la == lo ==> Combined(lo, la, lb) == lb
    ensures la == lb ==> Combined(lo, la, lb) == la
  {
  }

  lemma InterleaveCombined(o: seq<Line>, a: seq<Line>, b: seq<Line>, p: nat, q: nat)
    requires Disjoint(o, a, b) && Slot(DiffSide(o, a), DiffSide(o, b), p, q)
    requires OneForOne(DiffSide(o, a), DiffSide(o, b), p, q)
    ensures Interleave(DiffSide(o, a), DiffSide(o, b), p, q) == Combined(o[p..q], a[p..q], b[p..q])
  {
    var sa, sb := DiffSide(o, a), DiffSide(o, b);
    SlotSpans(sa, sb, p, q);
    RewriteDiff(o, a);
    hide Script, Covered, OneForOne, Rewrites, Segment, Span, SlotStart, SlotEnd, DriftStart, DriftEnd;
    SegmentInPlace(o, a, p, q);
    SegmentInPlace(o, b, p, q);
    var m := Interleave(sa, sb, p, q);
    forall k | 0 <= k < q - p ensures m[k] == Combined(o[p..q], a[p..q], b[p..q])[k] {
      assert Covered(sa.hs, p + k) <==> o[p + k] != a[p + k];
    }
  }

  lemma SlotCombined(o: seq<Line>, a: seq<Line>, b: seq<Line>, p: nat, q: nat)
    requires Disjoint(o, a, b) && Slot(DiffSide(o, a), DiffSide(o, b), p, q)
    ensures Resolve(DiffSide(o, a), DiffSide(o, b), p, q) == Some(Combined(o, a, b)[p..q])
  {
    var sa, sb := DiffSide(o, a), DiffSide(o, b);
    SlotSpans(sa, sb, p, q);
    hide Script, Covered, OneForOne, Rewrites, Segment, Span, SlotStart, SlotEnd, Combined, Interleave;
    SegmentInPlace(o, a, p, q);
    SegmentInPlace(o, b, p, q);
    DisjointIsOneForOne(o, a, b, p, q);
    InterleaveCombined(o, a, b, p, q);
    CombinedSlice(o, a, b, p, q);
    CombinedCases(o[p..q], a[p..q], b[p..q]);
  }

  /** If `m` has every slot's text in the slot's place and every gap line in its place, the merge is `m`. */
  lemma {:induction false} MergeInPlace(a: Side, b: Side, m: seq<Line>, p: nat)
    requires SlotStart(a, b, p) && |m| == |a.o|
    requires forall s: nat, e: nat :: p <= s && Slot(a, b, s, e) ==> Resolve(a, b, s, e) == Some(m[s..e])
    requires forall i :: 0 <= i < |m| && !Covered(a.hs, i) && !Covered(b.hs, i) ==> m[i] == a.o[i]
    ensures MergeFrom(a, b, p) == Some(m[p..])
    decreases |a.o| - p
  {
    hide Script, Covered, Resolve, SlotEnd;
    var q := SlotEnd(a, b, p);
    assert Slot(a, b, p, q);
    if q < |a.o| {
      MergeInPlace(a, b, m, q + 1);
      assert m[q] == a.o[q];
      assert m[p..q] + [m[q]] + m[q + 1..] == m[p..];
    } else {
      assert m[p..q] == m[p..];
    }
  }

  /** Neither side rewrote a gap line. */
  lemma GapCombined(o: seq<Line>, a: seq<Line>, b: seq<Line>, q: nat)
    requires Disjoint(o, a, b) && q < |o|
    requires !Covered(DiffSide(o, a).hs, q) && !Covered(DiffSide(o, b).hs, q)
    ensures Combined(o, a, b)[q] == o[q]
  {
    hide Covered;
    RewriteDiff(o, a);
    RewriteDiff(o, b);
  }

  /**
   * Two people rewriting different lines, neighbouring or not, always merge, and the result has each one's
   * lines where that one put them.
   */
  lemma DisjointRewritesMerge(o: seq<Line>, a: seq<Line>, b: seq<Line>)
    requires Disjoint(o, a, b)
    ensures MergeLines(o, a, b) == Some(Combined(o, a, b))
  {
    var sa, sb, m := DiffSide(o, a), DiffSide(o, b), Combined(o, a, b);
    assert SlotStart(sa, sb, 0);
    hide Script, Covered, Resolve, Disjoint, Combined, MergeFrom, SlotEnd;
    forall s: nat, e: nat | Slot(sa, sb, s, e) ensures Resolve(sa, sb, s, e) == Some(m[s..e]) {
      SlotCombined(o, a, b, s, e);
    }
    forall i | 0 <= i < |m| && !Covered(sa.hs, i) && !Covered(sb.hs, i) ensures m[i] == o[i] {
      GapCombined(o, a, b, i);
    }
    MergeInPlace(sa, sb, m, 0);
    assert m[0..] == m;
  }

  // ---- Edits of one line conflict ------------------------------------------------------------------------

  lemma DirtyBlock(x: Block, i: nat)
    requires i < |x.o| && |x.a| == |x.o| && |x.b| == |x.o|
    requires x.a[i] != x.o[i] && x.b[i] != x.o[i] && x.a[i] != x.b[i]
    ensures !Clean(x)
  {
  }

  /** No clean weaving has two different new lines in one place. */
  lemma {:induction false} DirtyWeaving(w: Weaving, o: seq<Line>, i: nat, y: Line, z: Line)
    requires Distinct(o) && i < |o| && y !in o && z !in o && y != z
    requires AncestorText(w) == o && LocalText(w) == o[i := y] && RemoteText(w) == o[i := z]
    ensures !AllClean(w)
    decreases w
  {
    hide Clean;
    var a, b := o[i := y], o[i := z];
    if w.Last? {
      DirtyBlock(w.block, i);
    } else {
      var x, n := w.block, |w.block.o|;
      assert o[n] == w.gap && a[|x.a|] == w.gap && b[|x.b|] == w.gap;
      GapInPlace(o, i, y, n, |x.a|);
      GapInPlace(o, i, z, n, |x.b|);
      assert x.o == o[..n] && x.a == a[..n] && x.b == b[..n];
      if i < n {
        DirtyBlock(x, i);
      } else {
        assert AncestorText(w.rest) == o[n + 1..];
        assert LocalText(w.rest) == a[n + 1..] == o[n + 1..][i - n - 1 := y];
        assert RemoteText(w.rest) == b[n + 1..] == o[n + 1..][i - n - 1 := z];
        DirtyWeaving(w.rest, o[n + 1..], i - n - 1, y, z);
      }
    }
  }

  lemma GapInPlace(o: seq<Line>, i: nat, y: Line, n: nat, j: nat)
    requires Distinct(o) && i < |o| && y !in o && n < |o| && j < |o| && o[i := y][j] == o[n]
    ensures j == n && j != i
  {
    assert o[n] in o;
  }

  /** Two different new texts for one line always conflict: neither is picked silently. */
  lemma SameLineConflicts(o: seq<Line>, i: nat, y: Line, z: Line)
    requires Distinct(o) && i < |o| && y !in o && z !in o && y != z
    ensures MergeLines(o, o[i := y], o[i := z]).None?
  {
    if MergeLines(o, o[i := y], o[i := z]).Some? {
      var w := MergeSound(o, o[i := y], o[i := z]);
      DirtyWeaving(w, o, i, y, z);
    }
  }
}
