/** Where an ancestor cut falls in a variant, and what the variant holds between two cuts. */
module Segments {

  import opened Text
  import opened Lcs
  import opened Hunks

  /** Some hunk replaces ancestor line `i`. */
  predicate Covered(hs: seq<Hunk>, i: int) {
    exists h :: h in hs && h.Covers(i)
  }

  /** Some hunk is anchored at a position of [p, q]. */
  predicate HasHunk(hs: seq<Hunk>, p: nat, q: nat) {
    exists h :: h in hs && p <= h.oStart <= q
  }

  /** Line drift of the hunks `variantStart` counts at cut `p`. */
  function DriftStart(hs: seq<Hunk>, p: nat): int {
    if hs == [] then 0
    else (if hs[0].OEnd() <= p && hs[0].oStart < p then hs[0].Delta() else 0) + DriftStart(hs[1..], p)
  }

  /** Line drift of the hunks `variantEnd` counts at cut `p`. */
  function DriftEnd(hs: seq<Hunk>, p: nat): int {
    if hs == [] then 0
    else (if hs[0].OEnd() <= p then hs[0].Delta() else 0) + DriftEnd(hs[1..], p)
  }

  method VariantStart(hunks: seq<Hunk>, p: nat) returns (at: int)
    ensures at == p + DriftStart(hunks, p)
  {
    var delta := 0;
    var k := 0;
    assert hunks[0..] == hunks;
    while k < |hunks|
      invariant 0 <= k <= |hunks|
      invariant delta + DriftStart(hunks[k..], p) == DriftStart(hunks, p)
    {
      var hunk := hunks[k];
      assert hunks[k..][1..] == hunks[k + 1..];
      if hunk.OEnd() <= p && hunk.oStart < p {
        delta := delta + hunk.Delta();
      }
      k := k + 1;
    }
    at := p + delta;
  }

  method VariantEnd(hunks: seq<Hunk>, p: nat) returns (at: int)
    ensures at == p + DriftEnd(hunks, p)
  {
    var delta := 0;
    var k := 0;
    assert hunks[0..] == hunks;
    while k < |hunks|
      invariant 0 <= k <= |hunks|
      invariant delta + DriftEnd(hunks[k..], p) == DriftEnd(hunks, p)
    {
      var hunk := hunks[k];
      assert hunks[k..][1..] == hunks[k + 1..];
      if hunk.OEnd() <= p {
        delta := delta + hunk.Delta();
      }
      k := k + 1;
    }
    at := p + delta;
  }

  // ---- Drift comparisons, hunk by hunk -------------------------------------------------------

  lemma {:induction false} NoDrift(hs: seq<Hunk>, p: nat)
    requires forall h :: h in hs ==> p <= h.oStart
    ensures DriftStart(hs, p) == 0
    ensures (forall h :: h in hs ==> p < h.OEnd()) ==> DriftEnd(hs, p) == 0
  {
    if hs != [] {
      assert hs[0] in hs;
      NoDrift(hs[1..], p);
    }
  }

  /** Moving past an uncovered line takes exactly the hunks that end there. */
  lemma {:induction false} DriftAfterLine(hs: seq<Hunk>, i: nat)
    requires forall h :: h in hs ==> !h.Covers(i)
    ensures DriftStart(hs, i + 1) == DriftEnd(hs, i)
  {
    if hs != [] {
      assert hs[0] in hs;
      DriftAfterLine(hs[1..], i);
    }
  }

  /** Between an edge `p` and a cut `q`, balanced hunks add no drift. */
  lemma {:induction false} DriftConstant(hs: seq<Hunk>, p: nat, q: nat)
    requires p <= q
    requires forall h :: h in hs && h.oStart < p ==> h.OEnd() <= p
    requires forall h :: h in hs && p <= h.oStart <= q ==> h.Delta() == 0
    ensures DriftEnd(hs, q) == DriftStart(hs, p) == DriftStart(hs, q)
  {
    if hs != [] {
      assert hs[0] in hs;
      DriftConstant(hs[1..], p, q);
    }
  }

  // ---- Positions of a script -----------------------------------------------------------------

  lemma RestStartsLater(o: seq<Line>, v: seq<Line>, hs: seq<Hunk>, oc: nat, vc: nat)
    requires Script(o, v, hs, oc, vc) && hs != []
    ensures forall h :: h in hs[1..] ==> hs[0].OEnd() < h.oStart && hs[0].VEnd() < h.abStart
  {
    ScriptSorted(o, v, hs, oc, vc);
    forall h | h in hs[1..] ensures hs[0].OEnd() < h.oStart && hs[0].VEnd() < h.abStart {
      var k :| 0 <= k < |hs[1..]| && hs[1..][k] == h;
      assert h == hs[k + 1];
    }
  }

  /** An uncovered ancestor line reappears in the variant at its drifted index. */
  lemma {:induction false} ImageFrom(o: seq<Line>, v: seq<Line>, hs: seq<Hunk>, oc: nat, vc: nat, i: nat)
    requires Script(o, v, hs, oc, vc)
    requires oc <= i < |o| && !Covered(hs, i)
    ensures vc <= vc - oc + i + DriftEnd(hs, i) < |v|
    ensures o[i] == v[vc - oc + i + DriftEnd(hs, i)]
    decreases |hs|
  {
    if hs == [] {
      assert o[i] == v[i - oc + vc];
    } else {
      var h := hs[0];
      assert h in hs && !h.Covers(i);
      if i < h.oStart {
        RestStartsLater(o, v, hs, oc, vc);
        NoDrift(hs, i);
        assert o[i] == v[i - oc + vc];
      } else {
        forall g | g in hs[1..] ensures !g.Covers(i) { assert g in hs; }
        ImageFrom(o, v, hs[1..], h.OEnd(), h.VEnd(), i);
      }
    }
  }

  lemma {:induction false} DriftTotal(o: seq<Line>, v: seq<Line>, hs: seq<Hunk>, oc: nat, vc: nat)
    requires Script(o, v, hs, oc, vc)
    ensures vc - oc + |o| + DriftEnd(hs, |o|) == |v|
    decreases |hs|
  {
    if hs != [] {
      var h := hs[0];
      DriftTotal(o, v, hs[1..], h.OEnd(), h.VEnd());
    }
  }

  /** A hunk starts at the variant index `variantStart` assigns to its anchor. */
  lemma {:induction false} HunkPosition(o: seq<Line>, v: seq<Line>, hs: seq<Hunk>, oc: nat, vc: nat, g: Hunk)
    requires Script(o, v, hs, oc, vc) && g in hs
    ensures g.abStart == vc - oc + g.oStart + DriftStart(hs, g.oStart)
    decreases |hs|
  {
    var h := hs[0];
    RestStartsLater(o, v, hs, oc, vc);
    if g == h {
      NoDrift(hs, g.oStart);
    } else {
      HunkPosition(o, v, hs[1..], h.OEnd(), h.VEnd(), g);
    }
  }

  /** `p` is not strictly inside a hunk. */
  ghost predicate Cut(hs: seq<Hunk>, p: nat) {
    forall h :: h in hs && h.oStart < p ==> h.OEnd() <= p
  }

  lemma {:induction false} StartMonotone(o: seq<Line>, v: seq<Line>, hs: seq<Hunk>, oc: nat, vc: nat, p: nat, q: nat)
    requires Script(o, v, hs, oc, vc)
    requires oc <= p <= q && Cut(hs, p) && Cut(hs, q)
    ensures p + DriftStart(hs, p) <= q + DriftStart(hs, q)
    decreases |hs|
  {
    if hs != [] {
      var h := hs[0];
      assert h in hs;
      RestStartsLater(o, v, hs, oc, vc);
      if q <= h.oStart {
        NoDrift(hs, q);
        NoDrift(hs, p);
      } else if p <= h.oStart {
        NoDrift(hs, p);
        NoDrift(hs[1..], h.OEnd());
        StartMonotone(o, v, hs[1..], h.OEnd(), h.VEnd(), h.OEnd(), q);
      } else {
        StartMonotone(o, v, hs[1..], h.OEnd(), h.VEnd(), p, q);
      }
    }
  }

  lemma {:induction false} EndAfterStart(hs: seq<Hunk>, p: nat)
    requires Cut(hs, p)
    ensures DriftStart(hs, p) <= DriftEnd(hs, p)
  {
    if hs != [] {
      assert hs[0] in hs;
      EndAfterStart(hs[1..], p);
    }
  }

  /** A hunk that starts at `p` and ends by `q` adds its lines before `q`. */
  lemma {:induction false} HunkEndsBefore(o: seq<Line>, v: seq<Line>, hs: seq<Hunk>, oc: nat, vc: nat, g: Hunk, q: nat)
    requires Script(o, v, hs, oc, vc) && g in hs && g.OEnd() <= q && Cut(hs, q)
    ensures g.VEnd() <= vc - oc + q + DriftEnd(hs, q)
    decreases |hs|
  {
    var h := hs[0];
    assert h in hs;
    RestStartsLater(o, v, hs, oc, vc);
    if g == h {
      NoDrift(hs[1..], h.OEnd());
      StartMonotone(o, v, hs[1..], h.OEnd(), h.VEnd(), h.OEnd(), q);
      EndAfterStart(hs[1..], q);
    } else {
      assert h.OEnd() <= q;
      HunkEndsBefore(o, v, hs[1..], h.OEnd(), h.VEnd(), g, q);
    }
  }

  // ---- One side of a merge -------------------------------------------------------------------

  /** An ancestor, a variant and the hunks between them. */
  datatype Side = Side(o: seq<Line>, v: seq<Line>, hs: seq<Hunk>) {

    ghost predicate Valid() {
      Script(o, v, hs, 0, 0)
    }

    /** The hunks leave as many ancestor lines in place as the LCS allows. */
    ghost predicate Optimal() {
      Valid() && Cost(hs) == |o| - Len(o, v, 0, 0)
    }

    function Start(p: nat): int { p + DriftStart(hs, p) }

    function End(p: nat): int { p + DriftEnd(hs, p) }

    /** Position `p` follows an untouched line, or is the top. */
    predicate EdgeBefore(p: nat) { p == 0 || !Covered(hs, p - 1) }

    /** Position `q` precedes an untouched line, or is the bottom. */
    predicate EdgeAfter(q: nat) { q == |o| || !Covered(hs, q) }
  }

  /** A stretch of positions that no hunk of the side straddles. */
  ghost predicate Span(s: Side, p: nat, q: nat) {
    s.Valid() && p <= q <= |s.o| && s.EdgeBefore(p) && s.EdgeAfter(q)
  }

  lemma SpanCuts(s: Side, p: nat, q: nat)
    requires Span(s, p, q)
    ensures Cut(s.hs, p) && Cut(s.hs, q)
  {
    ScriptFirstBound(s.o, s.v, s.hs, 0, 0);
    forall h | h in s.hs && h.oStart < p ensures h.OEnd() <= p { assert !h.Covers(p - 1); }
    forall h | h in s.hs && h.oStart < q ensures h.OEnd() <= q { assert q < |s.o| ==> !h.Covers(q); }
  }

  lemma SpanBounds(s: Side, p: nat, q: nat)
    requires Span(s, p, q)
    ensures 0 <= s.Start(p) <= s.End(q) <= |s.v|
    ensures q < |s.o| ==> s.End(q) < |s.v| && s.v[s.End(q)] == s.o[q] && s.Start(q + 1) == s.End(q) + 1
    ensures q == |s.o| ==> s.End(q) == |s.v|
    ensures p == 0 ==> s.Start(p) == 0
  {
    SpanCuts(s, p, q);
    StartMonotone(s.o, s.v, s.hs, 0, 0, p, q);
    EndAfterStart(s.hs, q);
    NoDrift(s.hs, 0);
    StartMonotone(s.o, s.v, s.hs, 0, 0, 0, p);
    if q < |s.o| {
      ImageFrom(s.o, s.v, s.hs, 0, 0, q);
      forall h | h in s.hs ensures !h.Covers(q) { }
      DriftAfterLine(s.hs, q);
    } else {
      DriftTotal(s.o, s.v, s.hs, 0, 0);
    }
  }

  /** The side's lines for ancestor positions [p, q]. */
  ghost function Segment(s: Side, p: nat, q: nat): seq<Line>
    requires Span(s, p, q)
  {
    SpanBounds(s, p, q);
    s.v[s.Start(p)..s.End(q)]
  }

  /** The variant's lines for the ancestor range [oStart, oEnd). */
  method SegmentFor(hunks: seq<Hunk>, variant: seq<Line>, oStart: nat, oEnd: nat, ghost o: seq<Line>)
    returns (lines: seq<Line>)
    requires Span(Side(o, variant, hunks), oStart, oEnd)
    ensures lines == Segment(Side(o, variant, hunks), oStart, oEnd)
  {
    SpanBounds(Side(o, variant, hunks), oStart, oEnd);
    var from := VariantStart(hunks, oStart);
    var to := VariantEnd(hunks, oEnd);
    lines := variant[from..to];
  }

  /** Balanced hunks keep line numbers aligned throughout the span. */
  lemma BalancedSpan(s: Side, p: nat, q: nat)
    requires Span(s, p, q)
    requires forall h :: h in s.hs && p <= h.oStart <= q ==> h.Delta() == 0
    ensures |Segment(s, p, q)| == q - p
    ensures forall i :: p <= i < q && !Covered(s.hs, i) ==> Segment(s, p, q)[i - p] == s.o[i]
    ensures forall h :: h in s.hs && p <= h.oStart <= q ==> h.abStart - s.Start(p) == h.oStart - p
  {
    SpanCuts(s, p, q);
    SpanBounds(s, p, q);
    DriftConstant(s.hs, p, q);
    forall i | p <= i < q && !Covered(s.hs, i)
      ensures Segment(s, p, q)[i - p] == s.o[i]
    {
      DriftConstant(s.hs, p, i);
      ImageFrom(s.o, s.v, s.hs, 0, 0, i);
    }
    forall h | h in s.hs && p <= h.oStart <= q
      ensures h.abStart - s.Start(p) == h.oStart - p
    {
      HunkPosition(s.o, s.v, s.hs, 0, 0, h);
      DriftConstant(s.hs, p, h.oStart);
    }
  }

  /** A span without hunks is the ancestor's own text. */
  lemma QuietSpan(s: Side, p: nat, q: nat)
    requires Span(s, p, q) && !HasHunk(s.hs, p, q)
    ensures Segment(s, p, q) == s.o[p..q]
  {
    assert forall h :: h in s.hs ==> h.oStart < p || q < h.oStart;
    BalancedSpan(s, p, q);
    SpanCuts(s, p, q);
    forall i | p <= i < q ensures !Covered(s.hs, i) {
      assert forall h :: h in s.hs ==> !h.Covers(i);
    }
    assert forall i :: p <= i < q ==> Segment(s, p, q)[i - p] == s.o[i];
  }

  /** Every hunk anchored in the span has its replacement inside the span's segment. */
  lemma HunkInSpan(s: Side, p: nat, q: nat, h: Hunk)
    requires Span(s, p, q) && h in s.hs && p <= h.oStart <= q
    ensures h.OEnd() <= q
    ensures s.Start(p) <= h.abStart && h.VEnd() <= s.End(q)
  {
    SpanCuts(s, p, q);
    ScriptFirstBound(s.o, s.v, s.hs, 0, 0);
    ScriptSorted(s.o, s.v, s.hs, 0, 0);
    if h.oStart == q {
      assert q < |s.o| ==> !h.Covers(q);
    }
    forall g | g in s.hs && g.oStart < h.oStart ensures g.OEnd() <= h.oStart {
      var k :| 0 <= k < |s.hs| && s.hs[k] == g;
      var l :| 0 <= l < |s.hs| && s.hs[l] == h;
      assert k < l;
    }
    StartMonotone(s.o, s.v, s.hs, 0, 0, p, h.oStart);
    HunkPosition(s.o, s.v, s.hs, 0, 0, h);
    HunkEndsBefore(s.o, s.v, s.hs, 0, 0, h, q);
  }

  // ---- Optimality: a touched span never reads like the ancestor --------------------------------

  /** Ancestor lines replaced by the hunks that end at or before `p`. */
  ghost function CostTo(hs: seq<Hunk>, p: nat): nat {
    if hs == [] then 0 else (if hs[0].OEnd() <= p then hs[0].oLength else 0) + CostTo(hs[1..], p)
  }

  lemma {:induction false} NoCost(hs: seq<Hunk>, p: nat)
    requires forall h :: h in hs ==> p <= h.oStart
    ensures CostTo(hs, p) == 0
  {
    if hs != [] {
      assert hs[0] in hs;
      NoCost(hs[1..], p);
    }
  }

  lemma {:induction false} CostGrows(hs: seq<Hunk>, p: nat, q: nat)
    requires p <= q
    ensures CostTo(hs, p) <= CostTo(hs, q) <= Cost(hs)
    ensures forall g :: g in hs && p < g.OEnd() <= q && g.oLength > 0 ==> CostTo(hs, p) < CostTo(hs, q)
  {
    if hs != [] {
      CostGrows(hs[1..], p, q);
      assert forall g :: g in hs ==> g == hs[0] || g in hs[1..];
    }
  }

  /** Copying up to the first hunk and skipping it keeps that many matches. */
  lemma PastFirstHunk(o: seq<Line>, v: seq<Line>, hs: seq<Hunk>, oc: nat, vc: nat)
    requires Script(o, v, hs, oc, vc) && hs != []
    ensures hs[0].abStart - vc == hs[0].oStart - oc
    ensures hs[0].oStart - oc + Len(o, v, hs[0].OEnd(), hs[0].VEnd()) <= Len(o, v, oc, vc)
  {
    var h := hs[0];
    LenRun(o, v, oc, vc, h.oStart - oc);
    LenMonotone(o, v, h.oStart, h.abStart, h.OEnd(), h.VEnd());
  }

  lemma AboveFirstHunk(o: seq<Line>, v: seq<Line>, hs: seq<Hunk>, oc: nat, vc: nat, p: nat)
    requires Script(o, v, hs, oc, vc)
    requires oc <= p <= |o| && (hs != [] ==> p <= hs[0].oStart)
    ensures DriftStart(hs, p) == 0 && CostTo(hs, p) == 0
    ensures vc - oc + p <= |v|
    ensures p - oc + Len(o, v, p, vc - oc + p) <= Len(o, v, oc, vc)
  {
    if hs != [] {
      RestStartsLater(o, v, hs, oc, vc);
      NoDrift(hs, p);
      NoCost(hs, p);
    }
    assert Copied(o, v, oc, vc, p - oc);
    LenRun(o, v, oc, vc, p - oc);
  }

  /** The lines kept above a cut, plus an LCS below it, fit in the whole LCS. */
  lemma {:induction false} KeptAbove(o: seq<Line>, v: seq<Line>, hs: seq<Hunk>, oc: nat, vc: nat, p: nat)
    requires Script(o, v, hs, oc, vc)
    requires oc <= p <= |o| && Cut(hs, p)
    ensures 0 <= vc - oc + p + DriftStart(hs, p) <= |v|
    ensures p - oc - CostTo(hs, p) + Len(o, v, p, vc - oc + p + DriftStart(hs, p)) <= Len(o, v, oc, vc)
    decreases |hs|
  {
    if hs == [] || p <= hs[0].oStart {
      AboveFirstHunk(o, v, hs, oc, vc, p);
    } else {
      assert hs[0] in hs;
      PastFirstHunk(o, v, hs, oc, vc);
      KeptAbove(o, v, hs[1..], hs[0].OEnd(), hs[0].VEnd(), p);
    }
  }

  lemma BelowFirstCut(o: seq<Line>, v: seq<Line>, hs: seq<Hunk>, oc: nat, vc: nat, q: nat)
    requires Script(o, v, hs, oc, vc)
    requires oc <= q <= |o| && (hs != [] ==> q <= hs[0].oStart && q < hs[0].OEnd())
    ensures DriftEnd(hs, q) == 0 && CostTo(hs, q) == 0
    ensures vc - oc + q <= |v| && Script(o, v, hs, q, vc - oc + q)
  {
    if hs != [] {
      RestStartsLater(o, v, hs, oc, vc);
      NoDrift(hs, q);
      NoCost(hs, q);
      assert Reaches(o, v, hs[0], q, vc - oc + q);
    }
  }

  /** The lines kept below a cut fit in the LCS below it. */
  lemma {:induction false} KeptBelow(o: seq<Line>, v: seq<Line>, hs: seq<Hunk>, oc: nat, vc: nat, q: nat)
    requires Script(o, v, hs, oc, vc)
    requires oc <= q <= |o| && Cut(hs, q)
    ensures 0 <= vc - oc + q + DriftEnd(hs, q) <= |v|
    ensures |o| - q - (Cost(hs) - CostTo(hs, q)) <= Len(o, v, q, vc - oc + q + DriftEnd(hs, q))
    decreases |hs|
  {
    hide Len, Reaches;
    assert hs != [] ==> hs[0] in hs;
    if hs == [] || q < hs[0].OEnd() {
      BelowFirstCut(o, v, hs, oc, vc, q);
      ScriptBound(o, v, hs, q, vc - oc + q);
    } else {
      PastFirstHunk(o, v, hs, oc, vc);
      KeptBelow(o, v, hs[1..], hs[0].OEnd(), hs[0].VEnd(), q);
    }
  }

  lemma {:induction false} InsertionsDrift(hs: seq<Hunk>, p: nat, q: nat)
    requires p <= q && Cut(hs, p)
    requires forall h :: h in hs && p <= h.oStart <= q ==> h.oLength == 0 && h.abLength > 0
    ensures DriftStart(hs, p) <= DriftEnd(hs, q)
    ensures HasHunk(hs, p, q) ==> DriftStart(hs, p) < DriftEnd(hs, q)
  {
    if hs != [] {
      assert hs[0] in hs;
      InsertionsDrift(hs[1..], p, q);
      assert HasHunk(hs, p, q) && !(p <= hs[0].oStart <= q) ==> HasHunk(hs[1..], p, q);
    }
  }

  /** The whole LCS is at least what the hunks keep above and below a span, plus the span's own. */
  lemma SpanLen(s: Side, p: nat, q: nat)
    requires Span(s, p, q)
    ensures 0 <= s.Start(p) <= s.End(q) <= |s.v|
    ensures p - CostTo(s.hs, p) + Len(s.o, s.v, p, s.Start(p)) <= Len(s.o, s.v, 0, 0)
    ensures |s.o| - q - (Cost(s.hs) - CostTo(s.hs, q)) <= Len(s.o, s.v, q, s.End(q))
  {
    hide Script, Len, Cost, CostTo, DriftStart, DriftEnd;
    SpanCuts(s, p, q);
    assert 0 <= s.Start(p) <= s.End(q) <= |s.v| by { SpanBounds(s, p, q); }
    assert p - CostTo(s.hs, p) + Len(s.o, s.v, p, s.Start(p)) <= Len(s.o, s.v, 0, 0) by {
      KeptAbove(s.o, s.v, s.hs, 0, 0, p);
    }
    KeptBelow(s.o, s.v, s.hs, 0, 0, q);
  }

  lemma EqualSpanLen(s: Side, p: nat, q: nat)
    requires Span(s, p, q) && Segment(s, p, q) == s.o[p..q]
    ensures 0 <= s.Start(p) <= s.End(q) <= |s.v|
    ensures Len(s.o, s.v, p, s.Start(p)) == Len(s.o, s.v, q, s.End(q)) + (q - p)
  {
    SpanBounds(s, p, q);
    forall t | p <= t < q ensures s.o[t] == s.v[t - p + s.Start(p)] {
      assert s.o[t] == s.o[p..q][t - p] == Segment(s, p, q)[t - p];
    }
    LenRun(s.o, s.v, p, s.Start(p), q - p);
  }

  /** An equal span with a replaced line would allow a longer common subsequence. */
  lemma ReplacedSpanDiffers(s: Side, p: nat, q: nat, g: Hunk)
    requires s.Optimal() && Span(s, p, q)
    requires g in s.hs && p <= g.oStart && g.OEnd() <= q && g.oLength > 0
    ensures Segment(s, p, q) != s.o[p..q]
  {
    if Segment(s, p, q) == s.o[p..q] {
      SpanLen(s, p, q);
      EqualSpanLen(s, p, q);
      CostGrows(s.hs, p, q);
    }
  }

  /**
   * With an optimal diff, a span some hunk touches differs from the ancestor there: an equal
   * span could have been matched whole, giving a longer common subsequence.
   */
  lemma TouchedSpanDiffers(s: Side, p: nat, q: nat)
    requires s.Optimal() && Span(s, p, q) && HasHunk(s.hs, p, q)
    ensures Segment(s, p, q) != s.o[p..q]
  {
    if g :| g in s.hs && p <= g.oStart <= q && g.oLength > 0 {
      HunkInSpan(s, p, q, g);
      ReplacedSpanDiffers(s, p, q, g);
    } else {
      SpanCuts(s, p, q);
      SpanBounds(s, p, q);
      ScriptNonEmpty(s.o, s.v, s.hs, 0, 0);
      InsertionsDrift(s.hs, p, q);
    }
  }
}
