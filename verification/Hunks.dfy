/** Change hunks of a variant against its ancestor: how they are derived, and what they mean. */
module Hunks {

  import opened Text
  import opened Lcs

  /** Ancestor lines [oStart, OEnd) are replaced by variant lines [abStart, VEnd). */
  datatype Hunk = Hunk(oStart: nat, oLength: nat, abStart: nat, abLength: nat) {
    function OEnd(): nat { oStart + oLength }
    function VEnd(): nat { abStart + abLength }
    function Delta(): int { abLength - oLength }
    predicate Covers(i: int) { oStart <= i < OEnd() }
  }

  function Replacement(h: Hunk, v: seq<Line>): seq<Line>
    requires h.VEnd() <= |v|
  {
    v[h.abStart..h.VEnd()]
  }

  // ---- Deriving hunks from matches ---------------------------------------------------------

  function HunkBefore(oc: nat, vc: nat, x: nat, y: nat): seq<Hunk>
    requires oc <= x && vc <= y
  {
    if x > oc || y > vc then [Hunk(oc, x - oc, vc, y - vc)] else []
  }

  /** `ms[k..]` pairs equal lines of `o[oc..]` and `v[vc..]`, in increasing order. */
  ghost predicate Aligned(o: seq<Line>, v: seq<Line>, ms: seq<Match>, k: nat, oc: nat, vc: nat)
    decreases |ms| - k
  {
    && k <= |ms| && oc <= |o| && vc <= |v|
    && (k < |ms| ==>
          && oc <= ms[k].x < |o| && vc <= ms[k].y < |v|
          && o[ms[k].x] == v[ms[k].y]
          && Aligned(o, v, ms, k + 1, ms[k].x + 1, ms[k].y + 1))
  }

  /** Every stretch between consecutive matches, with the end of both texts as last boundary. */
  ghost function HunksFrom(o: seq<Line>, v: seq<Line>, ms: seq<Match>, k: nat, oc: nat, vc: nat): seq<Hunk>
    requires Aligned(o, v, ms, k, oc, vc)
    decreases |ms| - k
  {
    if k == |ms| then HunkBefore(oc, vc, |o|, |v|)
    else HunkBefore(oc, vc, ms[k].x, ms[k].y) + HunksFrom(o, v, ms, k + 1, ms[k].x + 1, ms[k].y + 1)
  }

  lemma {:induction false} CommonAligned(o: seq<Line>, v: seq<Line>, ms: seq<Match>, k: nat, i: nat, j: nat)
    requires i <= |o| && j <= |v| && k <= |ms| && Common(o, v, ms, 0, 0)
    requires k < |ms| ==> i <= ms[k].x && j <= ms[k].y
    ensures Aligned(o, v, ms, k, i, j)
    decreases |ms| - k
  {
    if k < |ms| {
      CommonAligned(o, v, ms, k + 1, ms[k].x + 1, ms[k].y + 1);
    }
  }

  // ---- What a hunk list means --------------------------------------------------------------

  /** Lines are copied from (oc, vc) up to the non-empty hunk `h`. */
  ghost predicate Reaches(o: seq<Line>, v: seq<Line>, h: Hunk, oc: nat, vc: nat) {
    && oc <= h.oStart && h.abStart - vc == h.oStart - oc
    && h.OEnd() <= |o| && h.VEnd() <= |v|
    && Copied(o, v, oc, vc, h.oStart - oc)
    && (h.oLength > 0 || h.abLength > 0)
  }

  /**
   * `hs` rewrites `o[oc..]` into `v[vc..]`: hunks in order, no hunk empty, consecutive hunks at
   * least one ancestor line apart, and every line outside the hunks copied.
   */
  ghost predicate Script(o: seq<Line>, v: seq<Line>, hs: seq<Hunk>, oc: nat, vc: nat) {
    && oc <= |o| && vc <= |v|
    && if hs == [] then |o| - oc == |v| - vc && Copied(o, v, oc, vc, |o| - oc)
       else
         && Reaches(o, v, hs[0], oc, vc)
         && (|hs| > 1 ==> hs[0].OEnd() < hs[1].oStart)
         && Script(o, v, hs[1..], hs[0].OEnd(), hs[0].VEnd())
  }

  /** Number of ancestor lines the hunks replace. */
  ghost function Cost(hs: seq<Hunk>): nat {
    if hs == [] then 0 else hs[0].oLength + Cost(hs[1..])
  }

  lemma ScriptExtend(o: seq<Line>, v: seq<Line>, hs: seq<Hunk>, oc: nat, vc: nat)
    requires oc < |o| && vc < |v| && o[oc] == v[vc]
    requires Script(o, v, hs, oc + 1, vc + 1)
    ensures Script(o, v, hs, oc, vc)
  {
  }

  lemma ScriptFirstBound(o: seq<Line>, v: seq<Line>, hs: seq<Hunk>, oc: nat, vc: nat)
    requires Script(o, v, hs, oc, vc)
    ensures forall h :: h in hs ==> oc <= h.oStart && vc <= h.abStart && h.OEnd() <= |o| && h.VEnd() <= |v|
    decreases |hs|
  {
    if hs != [] {
      ScriptFirstBound(o, v, hs[1..], hs[0].OEnd(), hs[0].VEnd());
      assert forall h :: h in hs ==> h == hs[0] || h in hs[1..];
    }
  }

  lemma ScriptCons(o: seq<Line>, v: seq<Line>, hs: seq<Hunk>)
    requires hs != [] && (hs[0].oLength > 0 || hs[0].abLength > 0)
    requires hs[0].OEnd() < |o| && hs[0].VEnd() < |v| && o[hs[0].OEnd()] == v[hs[0].VEnd()]
    requires Script(o, v, hs[1..], hs[0].OEnd() + 1, hs[0].VEnd() + 1)
    ensures Script(o, v, hs, hs[0].oStart, hs[0].abStart)
  {
    hide Script;
    var h, rest := hs[0], hs[1..];
    assert Copied(o, v, h.oStart, h.abStart, 0);
    hide Copied;
    if rest != [] { FirstHunkReached(o, v, rest, h.OEnd() + 1, h.VEnd() + 1); }
    ScriptExtend(o, v, rest, h.OEnd(), h.VEnd());
    ScriptStart(o, v, hs, h.oStart, h.abStart);
  }

  /** A script from its first hunk and the rest. */
  lemma ScriptStart(o: seq<Line>, v: seq<Line>, hs: seq<Hunk>, oc: nat, vc: nat)
    requires hs != [] && Reaches(o, v, hs[0], oc, vc) && vc <= hs[0].abStart
    requires |hs| > 1 ==> hs[0].OEnd() < hs[1].oStart
    requires Script(o, v, hs[1..], hs[0].OEnd(), hs[0].VEnd())
    ensures Script(o, v, hs, oc, vc)
  {
    hide Copied;
  }

  lemma FirstHunkReached(o: seq<Line>, v: seq<Line>, hs: seq<Hunk>, oc: nat, vc: nat)
    requires Script(o, v, hs, oc, vc) && hs != []
    ensures oc <= hs[0].oStart
  {
  }

  lemma ScriptLast(o: seq<Line>, v: seq<Line>, oc: nat, vc: nat)
    requires oc <= |o| && vc <= |v|
    ensures Script(o, v, HunkBefore(oc, vc, |o|, |v|), oc, vc)
  {
    var hs := HunkBefore(oc, vc, |o|, |v|);
    if hs != [] {
      assert hs[1..] == [];
      assert Reaches(o, v, hs[0], oc, vc);
    }
  }

  lemma ScriptPrepend(o: seq<Line>, v: seq<Line>, rest: seq<Hunk>, oc: nat, vc: nat, x: nat, y: nat)
    requires oc <= x < |o| && vc <= y < |v| && o[x] == v[y]
    requires Script(o, v, rest, x + 1, y + 1)
    ensures Script(o, v, HunkBefore(oc, vc, x, y) + rest, oc, vc)
  {
    hide Script;
    var hs := HunkBefore(oc, vc, x, y) + rest;
    if x > oc || y > vc {
      assert hs[0] == Hunk(oc, x - oc, vc, y - vc) && hs[1..] == rest;
      ScriptCons(o, v, hs);
    } else {
      assert hs == rest;
      ScriptExtend(o, v, rest, x, y);
    }
  }

  lemma CostPrepend(oc: nat, vc: nat, x: nat, y: nat, rest: seq<Hunk>)
    requires oc <= x && vc <= y
    ensures Cost(HunkBefore(oc, vc, x, y) + rest) == x - oc + Cost(rest)
  {
    var first := HunkBefore(oc, vc, x, y);
    if first != [] {
      assert (first + rest)[1..] == rest;
    } else {
      assert first + rest == rest;
    }
  }

  lemma {:induction false} HunksFromIsScript(o: seq<Line>, v: seq<Line>, ms: seq<Match>, k: nat, oc: nat, vc: nat)
    requires Aligned(o, v, ms, k, oc, vc)
    ensures Script(o, v, HunksFrom(o, v, ms, k, oc, vc), oc, vc)
    ensures Cost(HunksFrom(o, v, ms, k, oc, vc)) + |ms| - k == |o| - oc
    decreases |ms| - k
  {
    hide Script, HunkBefore;
    if k == |ms| {
      ScriptLast(o, v, oc, vc);
      CostPrepend(oc, vc, |o|, |v|, []);
      assert HunkBefore(oc, vc, |o|, |v|) + [] == HunkBefore(oc, vc, |o|, |v|);
    } else {
      var x, y := ms[k].x, ms[k].y;
      HunksFromIsScript(o, v, ms, k + 1, x + 1, y + 1);
      var rest := HunksFrom(o, v, ms, k + 1, x + 1, y + 1);
      ScriptPrepend(o, v, rest, oc, vc, x, y);
      CostPrepend(oc, vc, x, y, rest);
    }
  }

  /** No script can leave more ancestor lines in place than the LCS has. */
  lemma {:induction false} ScriptBound(o: seq<Line>, v: seq<Line>, hs: seq<Hunk>, oc: nat, vc: nat)
    requires Script(o, v, hs, oc, vc)
    ensures |o| - oc - Cost(hs) <= Len(o, v, oc, vc)
    decreases |hs|
  {
    if hs == [] {
      LenRun(o, v, oc, vc, |o| - oc);
    } else {
      var h := hs[0];
      LenRun(o, v, oc, vc, h.oStart - oc);
      LenMonotone(o, v, h.oStart, h.abStart, h.OEnd(), h.VEnd());
      ScriptBound(o, v, hs[1..], h.OEnd(), h.VEnd());
    }
  }

  /** The hunks `diffHunks` yields. */
  ghost function Diff(o: seq<Line>, v: seq<Line>): seq<Hunk> {
    WalkIsCommon(o, v, 0, 0);
    CommonAligned(o, v, Walk(o, v, 0, 0), 0, 0, 0);
    HunksFrom(o, v, Walk(o, v, 0, 0), 0, 0, 0)
  }

  /** The hunks rebuild the variant from the ancestor, and replace as few ancestor lines as any script can. */
  lemma DiffIsOptimalScript(o: seq<Line>, v: seq<Line>)
    ensures Script(o, v, Diff(o, v), 0, 0)
    ensures Cost(Diff(o, v)) == |o| - Len(o, v, 0, 0)
    ensures forall hs :: Script(o, v, hs, 0, 0) ==> Cost(Diff(o, v)) <= Cost(hs)
  {
    WalkIsCommon(o, v, 0, 0);
    CommonAligned(o, v, Walk(o, v, 0, 0), 0, 0, 0);
    HunksFromIsScript(o, v, Walk(o, v, 0, 0), 0, 0, 0);
    forall hs | Script(o, v, hs, 0, 0) ensures Cost(Diff(o, v)) <= Cost(hs) {
      ScriptBound(o, v, hs, 0, 0);
    }
  }

  /** What applying a script to the ancestor produces. */
  ghost function Apply(o: seq<Line>, v: seq<Line>, hs: seq<Hunk>, oc: nat, vc: nat): seq<Line>
    requires Script(o, v, hs, oc, vc)
    decreases |hs|
  {
    if hs == [] then o[oc..]
    else o[oc..hs[0].oStart] + Replacement(hs[0], v) + Apply(o, v, hs[1..], hs[0].OEnd(), hs[0].VEnd())
  }

  lemma {:induction false} ScriptOrdered(o: seq<Line>, v: seq<Line>, hs: seq<Hunk>, oc: nat, vc: nat)
    requires Script(o, v, hs, oc, vc)
    ensures forall k :: 0 < k < |hs| ==> hs[k - 1].OEnd() < hs[k].oStart && hs[k - 1].VEnd() < hs[k].abStart
    decreases |hs|
  {
    if hs != [] {
      ScriptOrdered(o, v, hs[1..], hs[0].OEnd(), hs[0].VEnd());
      if |hs| > 1 {
        assert hs[1..][0] == hs[1] && Reaches(o, v, hs[1], hs[0].OEnd(), hs[0].VEnd());
      }
      forall k | 0 < k < |hs| ensures hs[k - 1].OEnd() < hs[k].oStart && hs[k - 1].VEnd() < hs[k].abStart {
        if k > 1 {
          assert hs[1..][k - 2] == hs[k - 1] && hs[1..][k - 1] == hs[k];
        }
      }
    }
  }

  lemma {:induction false} ScriptSorted(o: seq<Line>, v: seq<Line>, hs: seq<Hunk>, oc: nat, vc: nat)
    requires Script(o, v, hs, oc, vc)
    ensures forall k, l :: 0 <= k < l < |hs| ==> hs[k].OEnd() < hs[l].oStart && hs[k].VEnd() < hs[l].abStart
    decreases |hs|
  {
    ScriptOrdered(o, v, hs, oc, vc);
    if hs != [] {
      ScriptSorted(o, v, hs[1..], hs[0].OEnd(), hs[0].VEnd());
      forall k, l | 0 <= k < l < |hs| ensures hs[k].OEnd() < hs[l].oStart && hs[k].VEnd() < hs[l].abStart {
        if k > 0 {
          assert hs[k] == hs[1..][k - 1] && hs[l] == hs[1..][l - 1];
        } else if l > 1 {
          assert hs[1] == hs[1..][0] && hs[l] == hs[1..][l - 1];
        }
      }
    }
  }

  lemma {:induction false} ApplyScript(o: seq<Line>, v: seq<Line>, hs: seq<Hunk>, oc: nat, vc: nat)
    requires Script(o, v, hs, oc, vc)
    ensures Apply(o, v, hs, oc, vc) == v[vc..]
    decreases |hs|
  {
    if hs == [] {
      assert o[oc..] == v[vc..];
    } else {
      var h := hs[0];
      ApplyScript(o, v, hs[1..], h.OEnd(), h.VEnd());
      assert o[oc..h.oStart] == v[vc..h.abStart];
      assert v[vc..] == v[vc..h.abStart] + v[h.abStart..h.VEnd()] + v[h.VEnd()..];
    }
  }

  /** Applying the derived hunks to the ancestor gives back the variant, and the hunks are well apart. */
  lemma DiffRebuilds(o: seq<Line>, v: seq<Line>)
    ensures var hs := Diff(o, v);
            && (forall h :: h in hs ==> h.OEnd() <= |o| && h.VEnd() <= |v| && (h.oLength > 0 || h.abLength > 0))
            && (forall k :: 0 < k < |hs| ==> hs[k - 1].OEnd() < hs[k].oStart && hs[k - 1].VEnd() < hs[k].abStart)
            && Script(o, v, hs, 0, 0)
            && Apply(o, v, hs, 0, 0) == v
  {
    var hs := Diff(o, v);
    DiffIsOptimalScript(o, v);
    ScriptFirstBound(o, v, hs, 0, 0);
    ScriptOrdered(o, v, hs, 0, 0);
    ScriptNonEmpty(o, v, hs, 0, 0);
    ApplyScript(o, v, hs, 0, 0);
  }

  lemma ScriptNonEmpty(o: seq<Line>, v: seq<Line>, hs: seq<Hunk>, oc: nat, vc: nat)
    requires Script(o, v, hs, oc, vc)
    ensures forall h :: h in hs ==> h.oLength > 0 || h.abLength > 0
    decreases |hs|
  {
    if hs != [] {
      ScriptNonEmpty(o, v, hs[1..], hs[0].OEnd(), hs[0].VEnd());
      assert forall h :: h in hs ==> h == hs[0] || h in hs[1..];
    }
  }

  /** Change hunks aligning `variant` to `ancestor`. */
  method DiffHunks(ancestor: seq<Line>, variant: seq<Line>) returns (hunks: seq<Hunk>)
    ensures hunks == Diff(ancestor, variant)
  {
    var matches := LcsMatches(ancestor, variant);
    CommonAligned(ancestor, variant, matches, 0, 0, 0);
    hunks := CollectHunks(ancestor, variant, matches);
  }

  /** The loop over the match boundaries; the end of both texts is the last boundary. */
  method CollectHunks(ancestor: seq<Line>, variant: seq<Line>, matches: seq<Match>) returns (hunks: seq<Hunk>)
    requires Aligned(ancestor, variant, matches, 0, 0, 0)
    ensures hunks == HunksFrom(ancestor, variant, matches, 0, 0, 0)
  {
    hide HunkBefore;
    hunks := [];
    var oCursor: nat, vCursor: nat := 0, 0;
    var k := 0;
    while k < |matches|
      invariant 0 <= k <= |matches|
      invariant Aligned(ancestor, variant, matches, k, oCursor, vCursor)
      invariant hunks + HunksFrom(ancestor, variant, matches, k, oCursor, vCursor)
             == HunksFrom(ancestor, variant, matches, 0, 0, 0)
    {
      ghost var found, rest := HunkBefore(oCursor, vCursor, matches[k].x, matches[k].y),
          HunksFrom(ancestor, variant, matches, k + 1, matches[k].x + 1, matches[k].y + 1);
      assert hunks + (found + rest) == (hunks + found) + rest;
      hunks := PushHunk(hunks, oCursor, vCursor, matches[k]);
      oCursor, vCursor := matches[k].x + 1, matches[k].y + 1;
      k := k + 1;
    }
    hunks := PushHunk(hunks, oCursor, vCursor, Match(|ancestor|, |variant|));
  }

  /** Records the change before a boundary, if there is one. */
  method PushHunk(hunks: seq<Hunk>, oCursor: nat, vCursor: nat, boundary: Match) returns (pushed: seq<Hunk>)
    requires oCursor <= boundary.x && vCursor <= boundary.y
    ensures pushed == hunks + HunkBefore(oCursor, vCursor, boundary.x, boundary.y)
  {
    var oLength, abLength := boundary.x - oCursor, boundary.y - vCursor;
    pushed := hunks;
    if oLength > 0 || abLength > 0 {
      pushed := pushed + [Hunk(oCursor, oLength, vCursor, abLength)];
    }
  }
}
