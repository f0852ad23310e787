/**
 * What the three-way merge means, without its event walk.
 *
 * An ancestor line no hunk of either side covers is a gap. The gaps cut the ancestor's positions
 * into slots; each slot is resolved on its own, and the gap lines are copied between them.
 */
module MergeSpec {

  import opened Text
  import opened Lcs
  import opened Hunks
  import opened Segments
  import opened Options

  /** Both sides of a merge, diffed against the same ancestor. */
  ghost predicate Sides(a: Side, b: Side) {
    a.o == b.o && a.Valid() && b.Valid()
  }

  /** The end of the slot that starts at `p`: the next gap line, or the bottom. */
  ghost function SlotEnd(a: Side, b: Side, p: nat): (q: nat)
    requires a.o == b.o && p <= |a.o|
    ensures p <= q <= |a.o|
    ensures a.EdgeAfter(q) && b.EdgeAfter(q)
    ensures forall i :: p <= i < q ==> Covered(a.hs, i) || Covered(b.hs, i)
    decreases |a.o| - p
  {
    if a.EdgeAfter(p) && b.EdgeAfter(p) then p else SlotEnd(a, b, p + 1)
  }

  /** Any position with `SlotEnd`'s properties is it. */
  lemma {:induction false} SlotEndUnique(a: Side, b: Side, p: nat, q: nat)
    requires a.o == b.o && p <= q <= |a.o|
    requires a.EdgeAfter(q) && b.EdgeAfter(q)
    requires forall i :: p <= i < q ==> Covered(a.hs, i) || Covered(b.hs, i)
    ensures SlotEnd(a, b, p) == q
    decreases q - p
  {
    if p < q {
      assert Covered(a.hs, p) || Covered(b.hs, p);
      SlotEndUnique(a, b, p + 1, q);
    }
  }

  /** Position `p` starts a slot: the top, or the position after a gap line. */
  ghost predicate SlotStart(a: Side, b: Side, p: nat) {
    Sides(a, b) && p <= |a.o| && a.EdgeBefore(p) && b.EdgeBefore(p)
  }

  /** [p, q] is a slot of the two sides. */
  ghost predicate Slot(a: Side, b: Side, p: nat, q: nat) {
    SlotStart(a, b, p) && q == SlotEnd(a, b, p)
  }

  lemma SlotSpans(a: Side, b: Side, p: nat, q: nat)
    requires Slot(a, b, p, q)
    ensures p <= q <= |a.o| && Span(a, p, q) && Span(b, p, q)
  {
  }

  /** Every hunk in the slot replaces lines one for one, and no line is claimed twice. */
  ghost predicate OneForOne(a: Side, b: Side, p: nat, q: nat) {
    && (forall h :: h in a.hs && p <= h.oStart <= q ==> h.oLength > 0 && h.oLength == h.abLength)
    && (forall h :: h in b.hs && p <= h.oStart <= q ==> h.oLength > 0 && h.oLength == h.abLength)
    && (forall i :: p <= i < q ==> !(Covered(a.hs, i) && Covered(b.hs, i)))
  }

  /** Line by line, the version of the side that claims the line. */
  ghost function Interleave(a: Side, b: Side, p: nat, q: nat): (m: seq<Line>)
    requires Slot(a, b, p, q) && OneForOne(a, b, p, q)
    ensures |m| == q - p == |Segment(a, p, q)| == |Segment(b, p, q)|
    ensures forall k :: 0 <= k < q - p ==>
              m[k] == if Covered(a.hs, p + k) then Segment(a, p, q)[k] else Segment(b, p, q)[k]
  {
    BalancedSpan(a, p, q);
    BalancedSpan(b, p, q);
    var la, lb := Segment(a, p, q), Segment(b, p, q);
    seq(q - p, k requires 0 <= k < q - p => if Covered(a.hs, p + k) then la[k] else lb[k])
  }

  /** The text of a slot after the merge, or None for a conflict. */
  ghost function Resolve(a: Side, b: Side, p: nat, q: nat): Option<seq<Line>>
    requires Slot(a, b, p, q)
  {
    var la, lb, lo := Segment(a, p, q), Segment(b, p, q), a.o[p..q];
    if lb == lo then Some(la)
    else if la == lo then Some(lb)
    else if la == lb then Some(la)
    else if OneForOne(a, b, p, q) then Some(Interleave(a, b, p, q))
    else None
  }

  /** The merge of everything from slot start `p` on. */
  ghost function MergeFrom(a: Side, b: Side, p: nat): Option<seq<Line>>
    requires SlotStart(a, b, p)
    decreases |a.o| - p
  {
    var q := SlotEnd(a, b, p);
    match Resolve(a, b, p, q)
    case None => None
    case Some(m) =>
      if q == |a.o| then Some(m)
      else
        match MergeFrom(a, b, q + 1)
        case None => None
        case Some(rest) => Some(m + [a.o[q]] + rest)
  }

  /** The two sides `mergeText` works on. */
  ghost function DiffSide(o: seq<Line>, v: seq<Line>): (s: Side)
    ensures s.o == o && s.v == v && s.Optimal()
  {
    DiffIsOptimalScript(o, v);
    Side(o, v, Diff(o, v))
  }

  ghost function MergeLines(o: seq<Line>, a: seq<Line>, b: seq<Line>): Option<seq<Line>> {
    MergeFrom(DiffSide(o, a), DiffSide(o, b), 0)
  }

  // ---- Commutativity ---------------------------------------------------------------------------

  lemma SlotCommutes(a: Side, b: Side, p: nat, q: nat)
    requires Slot(a, b, p, q)
    ensures Slot(b, a, p, q)
  {
    SlotEndUnique(b, a, p, q);
  }

  lemma ResolveCommutes(a: Side, b: Side, p: nat, q: nat)
    requires Slot(a, b, p, q) && Slot(b, a, p, q)
    ensures Resolve(a, b, p, q) == Resolve(b, a, p, q)
  {
    if OneForOne(a, b, p, q) {
      assert OneForOne(b, a, p, q);
      var m, m' := Interleave(a, b, p, q), Interleave(b, a, p, q);
      forall k | 0 <= k < q - p ensures m[k] == m'[k] {
        assert Covered(a.hs, p + k) || Covered(b.hs, p + k);
      }
      assert m == m';
    }
  }

  /** Which side is local and which is remote does not matter. */
  lemma {:induction false} MergeCommutes(a: Side, b: Side, p: nat)
    requires SlotStart(a, b, p)
    ensures SlotStart(b, a, p)
    ensures MergeFrom(a, b, p) == MergeFrom(b, a, p)
    decreases |a.o| - p
  {
    hide Script, Covered, Resolve, SlotEnd;
    var q := SlotEnd(a, b, p);
    SlotCommutes(a, b, p, q);
    ResolveCommutes(a, b, p, q);
    if q < |a.o| {
      MergeCommutes(a, b, q + 1);
    }
  }

  /** Two clients that merge the same pair of heads author the same text, whichever is local. */
  lemma MergeLinesCommutes(o: seq<Line>, a: seq<Line>, b: seq<Line>)
    ensures MergeLines(o, a, b) == MergeLines(o, b, a)
  {
    MergeCommutes(DiffSide(o, a), DiffSide(o, b), 0);
  }
}
