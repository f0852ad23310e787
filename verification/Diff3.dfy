/** The merge as it runs: a sorted walk over both sides' hunks. */
module Diff3 {

  import opened Text
  import opened Lcs
  import opened Hunks
  import opened Segments
  import opened MergeSpec
  import opened Options

  datatype Origin = Local | Remote

  /** A hunk tagged with the side it comes from. */
  datatype Event = Event(hunk: Hunk, side: Origin)

  // ---- Sorting the events ---------------------------------------------------------------------

  /** The sort's comparator: by anchor, the local side first on a tie. */
  predicate NotAfter(x: Event, y: Event) {
    || x.hunk.oStart < y.hunk.oStart
    || (x.hunk.oStart == y.hunk.oStart && (x.side == y.side || x.side == Local))
  }

  predicate Sorted(es: seq<Event>) {
    forall k, l :: 0 <= k < l < |es| ==> NotAfter(es[k], es[l])
  }

  function Insert(e: Event, es: seq<Event>): (r: seq<Event>)
    ensures multiset(r) == multiset(es) + multiset{e}
  {
    if es == [] then [e]
    else if NotAfter(e, es[0]) then [e] + es
    else
      assert es == [es[0]] + es[1..];
      [es[0]] + Insert(e, es[1..])
  }

  lemma SortedCons(e: Event, es: seq<Event>)
    requires Sorted(es) && forall x :: x in es ==> NotAfter(e, x)
    ensures Sorted([e] + es)
  {
    var r := [e] + es;
    forall k, l | 0 <= k < l < |r| ensures NotAfter(r[k], r[l]) {
      if k > 0 {
        assert r[k] == es[k - 1] && r[l] == es[l - 1];
      } else {
        assert r[l] == es[l - 1] && es[l - 1] in es;
      }
    }
  }

  lemma {:induction false} InsertSorted(e: Event, es: seq<Event>)
    requires Sorted(es)
    ensures Sorted(Insert(e, es))
  {
    if es != [] {
      assert forall x :: x in es ==> x == es[0] || NotAfter(es[0], x);
      if NotAfter(e, es[0]) {
        SortedCons(e, es);
      } else {
        InsertSorted(e, es[1..]);
        var rest := Insert(e, es[1..]);
        forall x | x in rest ensures NotAfter(es[0], x) {
          assert x in multiset(rest);
          if x != e {
            var k :| 0 <= k < |es[1..]| && es[1..][k] == x;
            assert es[k + 1] == x;
          }
        }
        SortedCons(es[0], rest);
      }
    }
  }

  function SortEvents(es: seq<Event>): (r: seq<Event>)
    ensures Sorted(r) && multiset(r) == multiset(es)
  {
    if es == [] then []
    else
      assert es == [es[0]] + es[1..];
      var rest := SortEvents(es[1..]);
      InsertSorted(es[0], rest);
      Insert(es[0], rest)
  }

  function Tag(hs: seq<Hunk>, side: Origin): (es: seq<Event>)
    ensures |es| == |hs| && forall k :: 0 <= k < |hs| ==> es[k] == Event(hs[k], side)
  {
    seq(|hs|, k requires 0 <= k < |hs| => Event(hs[k], side))
  }

  /** The events are exactly both sides' hunks. */
  ghost predicate EventsOf(es: seq<Event>, a: seq<Hunk>, b: seq<Hunk>) {
    forall h, side :: Event(h, side) in es <==> h in (if side == Local then a else b)
  }

  lemma SortedEventsOf(a: seq<Hunk>, b: seq<Hunk>)
    ensures EventsOf(SortEvents(Tag(a, Local) + Tag(b, Remote)), a, b)
  {
    var unsorted := Tag(a, Local) + Tag(b, Remote);
    var es := SortEvents(unsorted);
    forall h, side ensures Event(h, side) in es <==> h in (if side == Local then a else b) {
      var e := Event(h, side);
      assert e in es <==> e in multiset(es);
      assert e in unsorted <==> e in multiset(unsorted);
      assert e in Tag(a, Local) <==> side == Local && h in a;
      assert e in Tag(b, Remote) <==> side == Remote && h in b;
    }
  }

  // ---- The walk inside a region both sides touched -----------------------------------------------

  /** The hunk that replaces `line`, if any. */
  function HunkCovering(hs: seq<Hunk>, line: nat): (r: Option<Hunk>)
    ensures r.Some? ==> r.value in hs && r.value.Covers(line)
    ensures r.None? ==> !Covered(hs, line)
  {
    if hs == [] then None
    else if hs[0].Covers(line) then Some(hs[0])
    else HunkCovering(hs[1..], line)
  }

  predicate RegionHasOppositeChange(hs: seq<Hunk>, regionStart: nat, regionEnd: nat) {
    exists h :: h in hs && h.oStart < regionEnd && h.OEnd() > regionStart
  }

  /** Every hunk overlapping the region is inside it and replaces lines one for one. */
  predicate Balanced(hs: seq<Hunk>, regionStart: nat, regionEnd: nat) {
    forall h :: h in hs && h.oStart < regionEnd && h.OEnd() > regionStart ==>
      && h.oLength > 0 && h.oLength == h.abLength
      && h.oStart >= regionStart && h.OEnd() <= regionEnd
  }

  predicate HasInsertionIn(hs: seq<Hunk>, regionStart: nat, regionEnd: nat) {
    exists h :: h in hs && h.oLength == 0 && regionStart <= h.oStart <= regionEnd
  }

  /** The two guards together say that every hunk anchored in the slot is one for one. */
  lemma GuardsMean(s: Side, p: nat, q: nat)
    requires Span(s, p, q)
    ensures (Balanced(s.hs, p, q) && !HasInsertionIn(s.hs, p, q)) <==>
            (forall h :: h in s.hs && p <= h.oStart <= q ==> h.oLength > 0 && h.oLength == h.abLength)
  {
    SpanCuts(s, p, q);
    forall h | h in s.hs && p <= h.oStart <= q ensures h.OEnd() <= q {
      HunkInSpan(s, p, q, h);
    }
  }

  /** The lines emitted so far are the claiming side's, and no line so far is claimed twice. */
  ghost predicate Walked(a: Side, b: Side, p: nat, q: nat, line: nat, out: seq<Line>)
    requires Slot(a, b, p, q)
  {
    && p <= line <= q && |out| == line - p
    && |Segment(a, p, q)| == |Segment(b, p, q)| == q - p
    && Cut(a.hs, line) && Cut(b.hs, line)
    && (forall i :: p <= i < line ==> !(Covered(a.hs, i) && Covered(b.hs, i)))
    && (forall k :: 0 <= k < line - p ==>
          out[k] == if Covered(a.hs, p + k) then Segment(a, p, q)[k] else Segment(b, p, q)[k])
  }

  /** One step of the walk: the hunk at `line` belongs to `s`, the other side has nothing in its span. */
  lemma StepOwn(s: Side, t: Side, p: nat, q: nat, line: nat, h: Hunk)
    requires Span(s, p, q) && Span(t, p, q) && s.o == t.o
    requires forall g :: g in s.hs && p <= g.oStart <= q ==> g.oLength > 0 && g.oLength == g.abLength
    requires p <= line < q && Cut(s.hs, line) && Cut(t.hs, line)
    requires h in s.hs && h.Covers(line)
    requires !RegionHasOppositeChange(t.hs, h.oStart, h.OEnd())
    ensures h.oStart == line < h.OEnd() <= q && h.VEnd() <= |s.v| && h.abLength == h.oLength
    ensures Cut(s.hs, h.OEnd()) && Cut(t.hs, h.OEnd())
    ensures forall i :: line <= i < h.OEnd() ==> Covered(s.hs, i) && !Covered(t.hs, i)
    ensures |Segment(s, p, q)| == q - p && Replacement(h, s.v) == Segment(s, p, q)[line - p..h.OEnd() - p]
  {
    assert h.oStart == line;
    HunkInSpan(s, p, q, h);
    BalancedSpan(s, p, q);
    SegmentBounds(s, p, q);
    ScriptFirstBound(s.o, s.v, s.hs, 0, 0);
    SliceOfSlice(s.v, s.Start(p), s.End(q), line - p, h.OEnd() - p);
    HunkIsolated(s, h);
  }

  lemma SegmentBounds(s: Side, p: nat, q: nat)
    requires Span(s, p, q)
    ensures 0 <= s.Start(p) <= s.End(q) <= |s.v| && Segment(s, p, q) == s.v[s.Start(p)..s.End(q)]
  {
    SpanBounds(s, p, q);
  }

  /** No other hunk of a side reaches into a hunk. */
  lemma HunkIsolated(s: Side, h: Hunk)
    requires s.Valid() && h in s.hs
    ensures Cut(s.hs, h.OEnd())
  {
    ScriptSorted(s.o, s.v, s.hs, 0, 0);
    forall g | g in s.hs && g.oStart < h.OEnd() ensures g.OEnd() <= h.OEnd() {
      var k :| 0 <= k < |s.hs| && s.hs[k] == g;
      var l :| 0 <= l < |s.hs| && s.hs[l] == h;
      assert k <= l;
    }
  }

  lemma OverlapClaimsTwice(s: Side, t: Side, p: nat, q: nat, h: Hunk)
    requires Span(s, p, q) && Span(t, p, q) && s.o == t.o
    requires forall g :: g in t.hs && p <= g.oStart <= q ==> g.oLength > 0
    requires h in s.hs && p <= h.oStart && h.OEnd() <= q && h.oLength > 0
    requires RegionHasOppositeChange(t.hs, h.oStart, h.OEnd())
    ensures exists i :: p <= i < q && Covered(s.hs, i) && Covered(t.hs, i)
  {
    var g :| g in t.hs && g.oStart < h.OEnd() && g.OEnd() > h.oStart;
    SpanCuts(t, p, q);
    var i := if g.oStart < h.oStart then h.oStart else g.oStart;
    assert h.Covers(i) && g.Covers(i);
    assert p <= i < q && Covered(s.hs, i) && Covered(t.hs, i);
  }

  /** Rebuilds a region both sides touched, or gives up when a line is claimed twice. */
  method MergeDisjointRegion(ghost a: Side, ghost b: Side, localHunks: seq<Hunk>, remoteHunks: seq<Hunk>,
                             local: seq<Line>, remote: seq<Line>, regionStart: nat, regionEnd: nat)
    returns (r: Option<seq<Line>>)
    requires Slot(a, b, regionStart, regionEnd)
    requires a.hs == localHunks && b.hs == remoteHunks && a.v == local && b.v == remote
    ensures r == if OneForOne(a, b, regionStart, regionEnd)
                 then Some(Interleave(a, b, regionStart, regionEnd)) else None
  {
    hide Script, DriftStart, DriftEnd, SlotEnd, Segment, Covered;
    ghost var p, q := regionStart, regionEnd;
    SlotSpans(a, b, p, q);
    GuardsMean(a, p, q);
    GuardsMean(b, p, q);
    if !Balanced(localHunks, regionStart, regionEnd) || !Balanced(remoteHunks, regionStart, regionEnd) {
      return None;
    }
    if HasInsertionIn(localHunks, regionStart, regionEnd) || HasInsertionIn(remoteHunks, regionStart, regionEnd) {
      return None;
    }
    BalancedSpan(a, p, q);
    BalancedSpan(b, p, q);
    SpanCuts(a, p, q);
    SpanCuts(b, p, q);
    var out := [];
    var line := regionStart;
    while line < regionEnd
      invariant Walked(a, b, p, q, line, out)
    {
      var mine := HunkCovering(localHunks, line);
      var theirs := HunkCovering(remoteHunks, line);
      if mine.Some? && theirs.Some? {
        CoveredBy(a.hs, mine.value, line);
        CoveredBy(b.hs, theirs.value, line);
        return None;
      }
      // Every line of the region is claimed, so one of the two is there to read.
      assert Covered(a.hs, line) || Covered(b.hs, line);
      var own := if mine.Some? then mine.value else theirs.value;
      assert own.oStart >= line;
      if RegionHasOppositeChange(if mine.Some? then remoteHunks else localHunks, own.oStart, own.OEnd()) {
        if mine.Some? { HunkInSpan(a, p, q, own); OverlapClaimsTwice(a, b, p, q, own); }
        else { HunkInSpan(b, p, q, own); OverlapClaimsTwice(b, a, p, q, own); }
        return None;
      }
      // A one-for-one hunk has replacement lines, so the deletion guard never fires.
      assert own.abLength != 0;
      if mine.Some? {
        StepOwn(a, b, p, q, line, own);
      } else {
        StepOwn(b, a, p, q, line, own);
      }
      out := out + Replacement(own, if mine.Some? then local else remote);
      line := own.OEnd();
    }
    assert OneForOne(a, b, p, q);
    assert out == Interleave(a, b, p, q);
    return Some(out);
  }

  lemma CoveredBy(hs: seq<Hunk>, h: Hunk, i: int)
    requires h in hs && h.Covers(i)
    ensures Covered(hs, i)
  {
  }

  // ---- The region walk ----------------------------------------------------------------------------

  ghost function Prepend(m: seq<Line>, rest: Option<seq<Line>>): Option<seq<Line>> {
    match rest
    case None => None
    case Some(r) => Some(m + r)
  }

  /** What is still to come once the slot ending at `q` has been emitted. */
  ghost function After(a: Side, b: Side, q: nat): Option<seq<Line>>
    requires Sides(a, b) && q <= |a.o| && a.EdgeAfter(q) && b.EdgeAfter(q)
  {
    if q == |a.o| then Some([]) else Prepend([a.o[q]], MergeFrom(a, b, q + 1))
  }

  lemma MergeIsSlotThenAfter(a: Side, b: Side, p: nat, q: nat)
    requires Slot(a, b, p, q)
    ensures Resolve(a, b, p, q).None? ==> MergeFrom(a, b, p).None?
    ensures Resolve(a, b, p, q).Some? ==> MergeFrom(a, b, p) == Prepend(Resolve(a, b, p, q).value, After(a, b, q))
  {
    hide Resolve, Script, Covered, SlotEnd;
    if Resolve(a, b, p, q).Some? {
      var m := Resolve(a, b, p, q).value;
      if q == |a.o| {
        assert m + [] == m;
      } else if MergeFrom(a, b, q + 1).Some? {
        var rest := MergeFrom(a, b, q + 1).value;
        assert m + [a.o[q]] + rest == m + ([a.o[q]] + rest);
      }
    }
  }

  lemma PrependTwice(m: seq<Line>, n: seq<Line>, rest: Option<seq<Line>>)
    ensures Prepend(m, Prepend(n, rest)) == Prepend(m + n, rest)
  {
    if rest.Some? {
      assert m + (n + rest.value) == m + n + rest.value;
    }
  }

  /** Neither side has a hunk anchored in [p, s). */
  ghost predicate Quiet(a: Side, b: Side, p: nat, s: nat) {
    && (forall h :: h in a.hs ==> h.oStart < p || s <= h.oStart)
    && (forall h :: h in b.hs ==> h.oStart < p || s <= h.oStart)
  }

  /** A slot start with nothing anchored there is a gap line. */
  lemma QuietSlot(a: Side, b: Side, p: nat)
    requires SlotStart(a, b, p) && Quiet(a, b, p, p + 1)
    ensures a.EdgeAfter(p) && b.EdgeAfter(p)
    ensures MergeFrom(a, b, p) == After(a, b, p)
  {
    ScriptFirstBound(a.o, a.v, a.hs, 0, 0);
    ScriptFirstBound(b.o, b.v, b.hs, 0, 0);
    assert p > 0 ==> forall h :: h in a.hs || h in b.hs ==> !h.Covers(p - 1);
    SlotEndUnique(a, b, p, p);
    QuietSpan(a, p, p);
    QuietSpan(b, p, p);
    MergeIsSlotThenAfter(a, b, p, p);
    PrependEmpty(After(a, b, p));
  }

  lemma PrependEmpty(rest: Option<seq<Line>>)
    ensures Prepend([], rest) == rest
  {
    if rest.Some? {
      assert [] + rest.value == rest.value;
    }
  }

  /** Across quiet positions the merge copies the ancestor. */
  lemma {:induction false} QuietRun(a: Side, b: Side, p: nat, s: nat)
    requires SlotStart(a, b, p) && p <= s <= |a.o| && Quiet(a, b, p, s)
    ensures SlotStart(a, b, s)
    ensures MergeFrom(a, b, p) == Prepend(a.o[p..s], MergeFrom(a, b, s))
    decreases s - p
  {
    hide Script, Covered, MergeFrom;
    if p == s {
      assert a.o[p..s] == [];
      PrependEmpty(MergeFrom(a, b, s));
    } else {
      QuietSlot(a, b, p);
      QuietRun(a, b, p + 1, s);
      PrependTwice([a.o[p]], a.o[p + 1..s], MergeFrom(a, b, s));
      assert [a.o[p]] + a.o[p + 1..s] == a.o[p..s];
    }
  }

  /** Copying from the end of one slot to the start of the next. */
  lemma QuietAfter(a: Side, b: Side, q: nat, s: nat)
    requires Sides(a, b) && q < s <= |a.o| && a.EdgeAfter(q) && b.EdgeAfter(q) && Quiet(a, b, q + 1, s)
    ensures SlotStart(a, b, s)
    ensures After(a, b, q) == Prepend(a.o[q..s], MergeFrom(a, b, s))
  {
    hide Script, Covered, MergeFrom;
    QuietRun(a, b, q + 1, s);
    PrependTwice([a.o[q]], a.o[q + 1..s], MergeFrom(a, b, s));
    assert [a.o[q]] + a.o[q + 1..s] == a.o[q..s];
  }

  lemma QuietBottom(a: Side, b: Side)
    requires SlotStart(a, b, |a.o|) && Quiet(a, b, |a.o|, |a.o| + 1)
    ensures MergeFrom(a, b, |a.o|) == Some([])
  {
    QuietSlot(a, b, |a.o|);
  }

  /** One of the events covers ancestor line `i`. */
  ghost predicate EventCovers(es: seq<Event>, from: nat, to: nat, i: int)
    requires to <= |es|
  {
    exists k :: from <= k < to && es[k].hunk.Covers(i)
  }

  /** The events from `from` up to `to` lie in [s, e] and cover every line of it. */
  ghost predicate Grouped(es: seq<Event>, from: nat, to: nat, s: nat, e: nat) {
    && from <= to <= |es| && s <= e
    && (forall k :: from <= k < to ==> s <= es[k].hunk.oStart && es[k].hunk.OEnd() <= e)
    && (forall i :: s <= i < e ==> EventCovers(es, from, to, i))
  }

  lemma GroupedExtends(es: seq<Event>, from: nat, to: nat, s: nat, e: nat)
    requires Grouped(es, from, to, s, e) && to < |es| && s <= es[to].hunk.oStart <= e
    ensures Grouped(es, from, to + 1, s, Max(e, es[to].hunk.OEnd()))
  {
    var e', to' := Max(e, es[to].hunk.OEnd()), to + 1;
    forall i | s <= i < e' ensures EventCovers(es, from, to', i) {
      if i < e {
        assert EventCovers(es, from, to, i);
        var k :| from <= k < to && es[k].hunk.Covers(i);
      } else {
        assert es[to].hunk.Covers(i);
      }
    }
  }

  lemma GroupedFirst(es: seq<Event>, from: nat)
    requires from < |es|
    ensures Grouped(es, from, from + 1, es[from].hunk.oStart, es[from].hunk.OEnd())
  {
  }

  /** A group no later event touches is a slot, and its events tell which sides are in it. */
  lemma GroupIsSlot(a: Side, b: Side, es: seq<Event>, from: nat, to: nat, s: nat, e: nat)
    requires SlotStart(a, b, s) && EventsOf(es, a.hs, b.hs)
    requires Grouped(es, from, to, s, e)
    requires forall k :: 0 <= k < from ==> es[k].hunk.OEnd() <= s && es[k].hunk.oStart < s
    requires forall k :: to <= k < |es| ==> e < es[k].hunk.oStart
    ensures Slot(a, b, s, e)
    ensures HasHunk(a.hs, s, e) <==> exists k :: from <= k < to && es[k].side == Local
    ensures HasHunk(b.hs, s, e) <==> exists k :: from <= k < to && es[k].side == Remote
    ensures forall k :: 0 <= k < to ==> es[k].hunk.OEnd() <= e && es[k].hunk.oStart <= e
  {
    hide Script;
    assert forall k :: 0 <= k < |es| ==> es[k] in es && es[k] == Event(es[k].hunk, es[k].side);
    ScriptFirstBound(a.o, a.v, a.hs, 0, 0);
    ScriptFirstBound(b.o, b.v, b.hs, 0, 0);
    forall i | s <= i < e ensures Covered(a.hs, i) || Covered(b.hs, i) {
      assert EventCovers(es, from, to, i);
      var k :| from <= k < to && es[k].hunk.Covers(i);
    }
    assert e <= |a.o| by {
      if e > s {
        assert EventCovers(es, from, to, e - 1);
        var k :| from <= k < to && es[k].hunk.Covers(e - 1);
      }
    }
    forall h | h in a.hs
      ensures !h.Covers(e) && (s <= h.oStart <= e ==> exists k :: from <= k < to && es[k].side == Local)
    {
      assert Event(h, Local) in es;
      var k :| 0 <= k < |es| && es[k] == Event(h, Local);
    }
    forall h | h in b.hs
      ensures !h.Covers(e) && (s <= h.oStart <= e ==> exists k :: from <= k < to && es[k].side == Remote)
    {
      assert Event(h, Remote) in es;
      var k :| 0 <= k < |es| && es[k] == Event(h, Remote);
    }
    SlotEndUnique(a, b, s, e);
  }

  /** Groups the events that overlap or touch the region starting at `events[index]`. */
  method GroupRegion(events: seq<Event>, index: nat, ghost a: Side, ghost b: Side)
    returns (regionEnd: nat, next: nat, hasLocal: bool, hasRemote: bool)
    requires index < |events| && Sorted(events) && EventsOf(events, a.hs, b.hs)
    requires SlotStart(a, b, events[index].hunk.oStart)
    requires forall k :: 0 <= k < index ==>
               var s := events[index].hunk.oStart; events[k].hunk.OEnd() <= s && events[k].hunk.oStart < s
    ensures index < next <= |events|
    ensures Slot(a, b, events[index].hunk.oStart, regionEnd)
    ensures hasLocal == HasHunk(a.hs, events[index].hunk.oStart, regionEnd)
    ensures hasRemote == HasHunk(b.hs, events[index].hunk.oStart, regionEnd)
    ensures forall k :: 0 <= k < next ==> events[k].hunk.OEnd() <= regionEnd && events[k].hunk.oStart <= regionEnd
    ensures forall k :: next <= k < |events| ==> regionEnd < events[k].hunk.oStart
  {
    hide Script, Covered, SlotEnd, HasHunk, Grouped, EventsOf;
    var first := events[index];
    GroupedFirst(events, index);
    ghost var s := first.hunk.oStart;
    regionEnd := first.hunk.OEnd();
    hasLocal, hasRemote := first.side == Local, first.side == Remote;
    next := index + 1;
    while next < |events|
      invariant index < next <= |events|
      invariant Grouped(events, index, next, s, regionEnd)
      invariant hasLocal <==> exists k :: index <= k < next && events[k].side == Local
      invariant hasRemote <==> exists k :: index <= k < next && events[k].side == Remote
    {
      var event := events[next];
      if event.hunk.oStart - regionEnd >= 1 {
        break;
      }
      assert NotAfter(events[index], events[next]);
      GroupedExtends(events, index, next, s, regionEnd);
      regionEnd := Max(regionEnd, event.hunk.OEnd());
      hasLocal, hasRemote := hasLocal || event.side == Local, hasRemote || event.side == Remote;
      next := next + 1;
    }
    forall k | next <= k < |events| ensures regionEnd < events[k].hunk.oStart {
      assert k > next ==> NotAfter(events[next], events[k]);
    }
    GroupIsSlot(a, b, events, index, next, s, regionEnd);
  }

  /** Chooses a region's text: the only changed side, the common change, or the line-by-line walk. */
  method ResolveRegion(o: seq<Line>, local: seq<Line>, remote: seq<Line>, localHunks: seq<Hunk>, remoteHunks: seq<Hunk>,
                       regionStart: nat, regionEnd: nat, hasLocal: bool, hasRemote: bool, ghost a: Side, ghost b: Side)
    returns (r: Option<seq<Line>>)
    requires Slot(a, b, regionStart, regionEnd)
    requires a == Side(o, local, localHunks) && b == Side(o, remote, remoteHunks)
    requires hasLocal == HasHunk(localHunks, regionStart, regionEnd)
    requires hasRemote == HasHunk(remoteHunks, regionStart, regionEnd)
    ensures r == Resolve(a, b, regionStart, regionEnd)
  {
    hide Script, Covered, SlotEnd, HasHunk, Segment, Interleave;
    SlotSpans(a, b, regionStart, regionEnd);
    var localSegment := SegmentFor(localHunks, local, regionStart, regionEnd, o);
    var remoteSegment := SegmentFor(remoteHunks, remote, regionStart, regionEnd, o);
    var ancestorSegment := o[regionStart..regionEnd];
    if !hasLocal { QuietSpan(a, regionStart, regionEnd); }
    if !hasRemote { QuietSpan(b, regionStart, regionEnd); }
    if !hasRemote || remoteSegment == ancestorSegment {
      r := Some(localSegment);
    } else if !hasLocal || localSegment == ancestorSegment {
      r := Some(remoteSegment);
    } else if localSegment == remoteSegment {
      r := Some(localSegment);
    } else {
      r := MergeDisjointRegion(a, b, localHunks, remoteHunks, local, remote, regionStart, regionEnd);
    }
  }

  /** Where the walk stands: everything before `oCursor` is emitted, `events[index..]` are still to come. */
  ghost predicate Standing(a: Side, b: Side, es: seq<Event>, index: nat, oCursor: nat, merged: seq<Line>) {
    && Sides(a, b) && index <= |es| && oCursor <= |a.o|
    && (index == 0 ==> oCursor == 0 && merged == [])
    && (index > 0 ==>
          && a.EdgeAfter(oCursor) && b.EdgeAfter(oCursor)
          && (forall k :: 0 <= k < index ==> es[k].hunk.OEnd() <= oCursor && es[k].hunk.oStart <= oCursor)
          && (forall k :: index <= k < |es| ==> oCursor < es[k].hunk.oStart)
          && MergeFrom(a, b, 0) == Prepend(merged, After(a, b, oCursor)))
  }

  /** The lines up to the next region are copied from the ancestor. */
  lemma CopyToRegion(a: Side, b: Side, es: seq<Event>, index: nat, oCursor: nat, merged: seq<Line>)
    requires Standing(a, b, es, index, oCursor, merged) && index < |es|
    requires Sorted(es) && EventsOf(es, a.hs, b.hs)
    ensures oCursor <= es[index].hunk.oStart <= |a.o| && SlotStart(a, b, es[index].hunk.oStart)
    ensures MergeFrom(a, b, 0)
         == Prepend(merged + a.o[oCursor..es[index].hunk.oStart], MergeFrom(a, b, es[index].hunk.oStart))
  {
    hide Script, Covered, MergeFrom;
    var s := es[index].hunk.oStart;
    assert es[index] in es && es[index] == Event(es[index].hunk, es[index].side);
    ScriptFirstBound(a.o, a.v, a.hs, 0, 0);
    ScriptFirstBound(b.o, b.v, b.hs, 0, 0);
    AnchoredLater(a, b, es, index, if index == 0 then 0 else oCursor + 1);
    if index == 0 {
      QuietRun(a, b, 0, s);
      assert merged + a.o[0..s] == a.o[0..s];
    } else {
      QuietAfter(a, b, oCursor, s);
      PrependTwice(merged, a.o[oCursor..s], MergeFrom(a, b, s));
    }
  }

  lemma AnchoredLater(a: Side, b: Side, es: seq<Event>, index: nat, p: nat)
    requires Sorted(es) && EventsOf(es, a.hs, b.hs) && index <= |es|
    requires forall k :: 0 <= k < index ==> es[k].hunk.oStart < p
    ensures index < |es| ==> Quiet(a, b, p, es[index].hunk.oStart)
    ensures index == |es| ==> forall h :: h in a.hs || h in b.hs ==> h.oStart < p
  {
    forall h | h in a.hs ensures h.oStart < p || (index < |es| && es[index].hunk.oStart <= h.oStart) {
      EventAnchor(es, index, p, Event(h, Local));
    }
    forall h | h in b.hs ensures h.oStart < p || (index < |es| && es[index].hunk.oStart <= h.oStart) {
      EventAnchor(es, index, p, Event(h, Remote));
    }
  }

  lemma EventAnchor(es: seq<Event>, index: nat, p: nat, e: Event)
    requires Sorted(es) && index <= |es| && e in es
    requires forall k :: 0 <= k < index ==> es[k].hunk.oStart < p
    ensures e.hunk.oStart < p || (index < |es| && es[index].hunk.oStart <= e.hunk.oStart)
  {
    var k :| 0 <= k < |es| && es[k] == e;
    if index < k {
      assert NotAfter(es[index], es[k]);
    }
  }

  /** After the last region the rest of the ancestor is copied. */
  lemma CopyToBottom(a: Side, b: Side, es: seq<Event>, oCursor: nat, merged: seq<Line>)
    requires Standing(a, b, es, |es|, oCursor, merged)
    requires Sorted(es) && EventsOf(es, a.hs, b.hs)
    ensures MergeFrom(a, b, 0) == Some(merged + a.o[oCursor..])
  {
    hide Script, Covered, MergeFrom;
    var n := |a.o|;
    AnchoredLater(a, b, es, |es|, if |es| == 0 then 0 else oCursor + 1);
    assert a.o[oCursor..n] == a.o[oCursor..];
    if |es| == 0 {
      QuietRun(a, b, 0, n);
      QuietBottom(a, b);
      assert merged + a.o[0..] == a.o[0..] + [];
    } else if oCursor == n {
      assert merged + a.o[oCursor..] == merged + [];
    } else {
      QuietAfter(a, b, oCursor, n);
      QuietBottom(a, b);
      PrependTwice(merged, a.o[oCursor..n], Some([]));
      assert merged + a.o[oCursor..n] + [] == merged + a.o[oCursor..];
    }
  }

  /** Emitting a region moves the walk to its end; an unresolved region decides the whole merge. */
  lemma Advance(a: Side, b: Side, es: seq<Event>, index: nat, oCursor: nat, merged: seq<Line>, e: nat, next: nat)
    requires Standing(a, b, es, index, oCursor, merged) && index < next <= |es|
    requires Sorted(es) && EventsOf(es, a.hs, b.hs)
    requires Slot(a, b, es[index].hunk.oStart, e) && oCursor <= es[index].hunk.oStart
    requires forall k :: 0 <= k < next ==> es[k].hunk.OEnd() <= e && es[k].hunk.oStart <= e
    requires forall k :: next <= k < |es| ==> e < es[k].hunk.oStart
    ensures var s := es[index].hunk.oStart;
            match Resolve(a, b, s, e)
            case None => MergeFrom(a, b, 0).None?
            case Some(text) => Standing(a, b, es, next, e, merged + a.o[oCursor..s] + text)
  {
    hide Script, Covered, MergeFrom, Resolve, SlotEnd, EventsOf, Sorted;
    var s := es[index].hunk.oStart;
    CopyToRegion(a, b, es, index, oCursor, merged);
    MergeIsSlotThenAfter(a, b, s, e);
    if Resolve(a, b, s, e).Some? {
      PrependTwice(merged + a.o[oCursor..s], Resolve(a, b, s, e).value, After(a, b, e));
    }
  }

  /** What `GroupRegion` needs to know about the events before the region. */
  lemma BeforeRegion(a: Side, b: Side, es: seq<Event>, index: nat, oCursor: nat, merged: seq<Line>)
    requires Standing(a, b, es, index, oCursor, merged) && index < |es|
    ensures forall k :: 0 <= k < index ==>
              es[k].hunk.OEnd() <= es[index].hunk.oStart && es[k].hunk.oStart < es[index].hunk.oStart
  {
  }

  /** The three-way merge of line arrays. */
  method MergeHunks(o: seq<Line>, local: seq<Line>, remote: seq<Line>) returns (r: Option<seq<Line>>)
    ensures r == MergeLines(o, local, remote)
  {
    hide Script, Covered, MergeFrom, SlotEnd, HasHunk, Resolve, EventsOf, Sorted, After, Diff;
    var localHunks := DiffHunks(o, local);
    var remoteHunks := DiffHunks(o, remote);
    var events := SortEvents(Tag(localHunks, Local) + Tag(remoteHunks, Remote));
    SortedEventsOf(localHunks, remoteHunks);
    ghost var a, b := DiffSide(o, local), DiffSide(o, remote);
    var merged := [];
    var oCursor: nat := 0;
    var index := 0;
    while index < |events|
      invariant Standing(a, b, events, index, oCursor, merged)
    {
      CopyToRegion(a, b, events, index, oCursor, merged);
      BeforeRegion(a, b, events, index, oCursor, merged);
      var regionStart := events[index].hunk.oStart;
      var regionEnd, next, hasLocal, hasRemote := GroupRegion(events, index, a, b);
      Advance(a, b, events, index, oCursor, merged, regionEnd, next);
      merged := merged + o[oCursor..regionStart];
      var text := ResolveRegion(o, local, remote, localHunks, remoteHunks,
                                regionStart, regionEnd, hasLocal, hasRemote, a, b);
      if text.None? {
        return None;
      }
      merged := merged + text.value;
      oCursor, index := regionEnd, next;
    }
    CopyToBottom(a, b, events, oCursor, merged);
    return Some(merged + o[oCursor..]);
  }
}
