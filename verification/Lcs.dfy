/** The longest-common-subsequence table and walk that both line diffs are built on. */
module Lcs {

  import opened Text

  /** A matched pair of line indices. */
  datatype Match = Match(x: nat, y: nat)

  function Max(a: nat, b: nat): nat {
    if a >= b then a else b
  }

  lemma SliceOfSlice<T>(s: seq<T>, i: nat, j: nat, a: nat, b: nat)
    requires i <= j <= |s| && a <= b <= j - i
    ensures s[i..j][a..b] == s[i + a..i + b]
  {
    var left, right := s[i..j][a..b], s[i + a..i + b];
    forall k | 0 <= k < b - a ensures left[k] == right[k] {
      assert left[k] == s[i..j][a + k] == s[i + a + k];
    }
  }

  /** Length of a longest common subsequence of `x[i..]` and `y[j..]`. */
  function Len(x: seq<Line>, y: seq<Line>, i: nat, j: nat): nat
    requires i <= |x| && j <= |y|
    decreases |x| - i + |y| - j
  {
    if i == |x| || j == |y| then 0
    else if x[i] == y[j] then Len(x, y, i + 1, j + 1) + 1
    else Max(Len(x, y, i + 1, j), Len(x, y, i, j + 1))
  }

  /** Dropping a line from either side loses at most one match. */
  lemma {:induction false} LenStep(x: seq<Line>, y: seq<Line>, i: nat, j: nat)
    requires i <= |x| && j <= |y|
    ensures i < |x| ==> Len(x, y, i + 1, j) <= Len(x, y, i, j) <= Len(x, y, i + 1, j) + 1
    ensures j < |y| ==> Len(x, y, i, j + 1) <= Len(x, y, i, j) <= Len(x, y, i, j + 1) + 1
    decreases |x| - i + |y| - j
  {
    if i < |x| && j < |y| {
      LenStep(x, y, i + 1, j);
      LenStep(x, y, i, j + 1);
    }
  }

  lemma {:induction false} LenMonotone(x: seq<Line>, y: seq<Line>, i: nat, j: nat, i': nat, j': nat)
    requires i <= i' <= |x| && j <= j' <= |y|
    ensures Len(x, y, i', j') <= Len(x, y, i, j)
    decreases i' - i + j' - j
  {
    LenStep(x, y, i, j);
    if i < i' {
      LenMonotone(x, y, i + 1, j, i', j');
    } else if j < j' {
      LenMonotone(x, y, i, j + 1, i', j');
    }
  }

  /** Lines `x[i..i + k]` and `y[j..j + k]` are the same. */
  ghost predicate Copied(x: seq<Line>, y: seq<Line>, i: nat, j: nat, k: nat) {
    i + k <= |x| && j + k <= |y| && forall t :: i <= t < i + k ==> x[t] == y[t - i + j]
  }

  /** A run of equal lines contributes one match per line. */
  lemma {:induction false} LenRun(x: seq<Line>, y: seq<Line>, i: nat, j: nat, k: nat)
    requires Copied(x, y, i, j, k)
    ensures Len(x, y, i, j) == Len(x, y, i + k, j + k) + k
    decreases k
  {
    if k > 0 {
      assert Copied(x, y, i + 1, j + 1, k - 1);
      LenRun(x, y, i + 1, j + 1, k - 1);
    }
  }

  /** `Len` depends only on the two suffixes. */
  lemma {:induction false} LenSuffix(x: seq<Line>, y: seq<Line>, i: nat, j: nat,
                                     x': seq<Line>, y': seq<Line>, i': nat, j': nat)
    requires i <= |x| && j <= |y| && i' <= |x'| && j' <= |y'|
    requires x[i..] == x'[i'..] && y[j..] == y'[j'..]
    ensures Len(x, y, i, j) == Len(x', y', i', j')
    decreases |x| - i + |y| - j
  {
    assert |x| - i == |x'| - i' && |y| - j == |y'| - j';
    if i < |x| && j < |y| {
      assert x[i] == x[i..][0] == x'[i'..][0] == x'[i'];
      assert y[j] == y[j..][0] == y'[j'..][0] == y'[j'];
      assert x[i + 1..] == x[i..][1..] == x'[i'..][1..] == x'[i' + 1..];
      assert y[j + 1..] == y[j..][1..] == y'[j'..][1..] == y'[j' + 1..];
      LenSuffix(x, y, i + 1, j + 1, x', y', i' + 1, j' + 1);
      LenSuffix(x, y, i + 1, j, x', y', i' + 1, j');
      LenSuffix(x, y, i, j + 1, x', y', i', j' + 1);
    }
  }

  /** `ms` is a common subsequence of `x[i..]` and `y[j..]`, as strictly increasing index pairs. */
  ghost predicate Common(x: seq<Line>, y: seq<Line>, ms: seq<Match>, i: nat, j: nat) {
    && (forall k :: 0 <= k < |ms| ==>
          i <= ms[k].x < |x| && j <= ms[k].y < |y| && x[ms[k].x] == y[ms[k].y])
    && (forall k, l :: 0 <= k < l < |ms| ==> ms[k].x < ms[l].x && ms[k].y < ms[l].y)
  }

  lemma CommonTail(x: seq<Line>, y: seq<Line>, ms: seq<Match>, i: nat, j: nat)
    requires ms != [] && Common(x, y, ms, i, j)
    ensures Common(x, y, ms[1..], ms[0].x + 1, ms[0].y + 1)
  {
  }

  /** No common subsequence is longer than `Len`. */
  lemma {:induction false} CommonBound(x: seq<Line>, y: seq<Line>, ms: seq<Match>, i: nat, j: nat)
    requires i <= |x| && j <= |y|
    requires Common(x, y, ms, i, j)
    ensures |ms| <= Len(x, y, i, j)
    decreases |ms|
  {
    if ms != [] {
      var h := ms[0];
      var rest := ms[1..];
      CommonTail(x, y, ms, i, j);
      CommonBound(x, y, rest, h.x + 1, h.y + 1);
      LenMonotone(x, y, i, j, h.x, h.y);
    }
  }

  /** The forward walk: take a match, else drop the line whose table entry is not worse (first side on ties). */
  function Walk(x: seq<Line>, y: seq<Line>, i: nat, j: nat): seq<Match>
    requires i <= |x| && j <= |y|
    decreases |x| - i + |y| - j
  {
    if i == |x| || j == |y| then []
    else if x[i] == y[j] then [Match(i, j)] + Walk(x, y, i + 1, j + 1)
    else if Len(x, y, i + 1, j) >= Len(x, y, i, j + 1) then Walk(x, y, i + 1, j)
    else Walk(x, y, i, j + 1)
  }

  lemma CommonCons(x: seq<Line>, y: seq<Line>, ms: seq<Match>, i: nat, j: nat)
    requires i < |x| && j < |y| && x[i] == y[j]
    requires Common(x, y, ms, i + 1, j + 1)
    ensures Common(x, y, [Match(i, j)] + ms, i, j)
  {
  }

  lemma CommonWiden(x: seq<Line>, y: seq<Line>, ms: seq<Match>, i: nat, j: nat, i': nat, j': nat)
    requires i <= i' && j <= j' && Common(x, y, ms, i', j')
    ensures Common(x, y, ms, i, j)
  {
  }

  lemma {:induction false} WalkIsCommon(x: seq<Line>, y: seq<Line>, i: nat, j: nat)
    requires i <= |x| && j <= |y|
    ensures Common(x, y, Walk(x, y, i, j), i, j)
    ensures |Walk(x, y, i, j)| == Len(x, y, i, j)
    decreases |x| - i + |y| - j
  {
    if i < |x| && j < |y| {
      if x[i] == y[j] {
        WalkIsCommon(x, y, i + 1, j + 1);
        CommonCons(x, y, Walk(x, y, i + 1, j + 1), i, j);
      } else if Len(x, y, i + 1, j) >= Len(x, y, i, j + 1) {
        WalkIsCommon(x, y, i + 1, j);
        CommonWiden(x, y, Walk(x, y, i + 1, j), i, j, i + 1, j);
      } else {
        WalkIsCommon(x, y, i, j + 1);
        CommonWiden(x, y, Walk(x, y, i, j + 1), i, j, i, j + 1);
      }
    }
  }

  /** The walk yields a common subsequence, and one of maximum length. */
  lemma WalkIsLongest(x: seq<Line>, y: seq<Line>, i: nat, j: nat)
    requires i <= |x| && j <= |y|
    ensures Common(x, y, Walk(x, y, i, j), i, j)
    ensures |Walk(x, y, i, j)| == Len(x, y, i, j)
    ensures forall ms :: Common(x, y, ms, i, j) ==> |ms| <= |Walk(x, y, i, j)|
  {
    WalkIsCommon(x, y, i, j);
    forall ms | Common(x, y, ms, i, j) ensures |ms| <= |Walk(x, y, i, j)| {
      CommonBound(x, y, ms, i, j);
    }
  }

  // ---- Which longest subsequence the walk takes --------------------------------------------------

  ghost predicate Longest(x: seq<Line>, y: seq<Line>, ms: seq<Match>, i: nat, j: nat) {
    i <= |x| && j <= |y| && Common(x, y, ms, i, j) && |ms| == Len(x, y, i, j)
  }

  /**
   * Which of the longest common subsequences of `x[i..]` and `y[j..]` starts like this: none starts earlier in
   * `y`; if `y[j]` itself is matched, then with its first occurrence in `x[i..]`, and else none starts later in `x`.
   */
  ghost predicate Chosen(x: seq<Line>, y: seq<Line>, first: Match, i: nat, j: nat) {
    && i <= first.x < |x| && j <= first.y < |y|
    && (forall ms: seq<Match> :: Longest(x, y, ms, i, j) && ms != [] ==> first.y <= ms[0].y)
    && (first.y == j ==> forall k :: i <= k < first.x ==> x[k] != y[j])
    && (first.y > j ==> forall ms: seq<Match> :: Longest(x, y, ms, i, j) && ms != [] ==> ms[0].x <= first.x)
  }

  /** Each match is the chosen one after its predecessor. */
  ghost predicate AllChosen(x: seq<Line>, y: seq<Line>, ms: seq<Match>, i: nat, j: nat) {
    ms == [] || (Chosen(x, y, ms[0], i, j) && AllChosen(x, y, ms[1..], ms[0].x + 1, ms[0].y + 1))
  }

  /** A longest subsequence that skips `x[i]` is one of the rest, and so for `y[j]`. */
  lemma LongestNarrows(x: seq<Line>, y: seq<Line>, ms: seq<Match>, i: nat, j: nat)
    requires Longest(x, y, ms, i, j) && ms != []
    ensures i < ms[0].x ==> Common(x, y, ms, i + 1, j) && |ms| <= Len(x, y, i + 1, j)
    ensures j < ms[0].y ==> Common(x, y, ms, i, j + 1) && |ms| <= Len(x, y, i, j + 1)
  {
    if i < ms[0].x {
      CommonBound(x, y, ms, i + 1, j);
    }
    if j < ms[0].y {
      CommonBound(x, y, ms, i, j + 1);
    }
  }

  /** No longest subsequence starts at `x[i]` before the first match of one that skips it. */
  lemma NoneBefore(x: seq<Line>, y: seq<Line>, ms: seq<Match>, rest: seq<Match>, i: nat, j: nat)
    requires Longest(x, y, ms, i, j) && ms != [] && ms[0].x == i
    requires Common(x, y, rest, i + 1, j) && |rest| == |ms|
    ensures rest[0].y <= ms[0].y
  {
    if ms[0].y < rest[0].y {
      CommonCons(x, y, rest, i, ms[0].y);
      CommonWiden(x, y, [ms[0]] + rest, i, j, i, ms[0].y);
      CommonBound(x, y, [ms[0]] + rest, i, j);
    }
  }

  lemma DropFirst(x: seq<Line>, y: seq<Line>, i: nat, j: nat, first: Match)
    requires i < |x| && j < |y| && x[i] != y[j] && Len(x, y, i + 1, j) >= Len(x, y, i, j + 1)
    requires Walk(x, y, i + 1, j) != [] && first == Walk(x, y, i + 1, j)[0] && Chosen(x, y, first, i + 1, j)
    ensures Chosen(x, y, first, i, j)
  {
    var rest := Walk(x, y, i + 1, j);
    WalkIsCommon(x, y, i + 1, j);
    hide Walk;
    forall ms: seq<Match> | Longest(x, y, ms, i, j) && ms != []
      ensures first.y <= ms[0].y && (first.y > j ==> ms[0].x <= first.x)
    {
      LongestNarrows(x, y, ms, i, j);
      if ms[0].x == i {
        NoneBefore(x, y, ms, rest, i, j);
      } else {
        assert Longest(x, y, ms, i + 1, j);
      }
    }
  }

  lemma DropSecond(x: seq<Line>, y: seq<Line>, i: nat, j: nat, first: Match)
    requires i < |x| && j < |y| && x[i] != y[j] && Len(x, y, i + 1, j) < Len(x, y, i, j + 1)
    requires Chosen(x, y, first, i, j + 1)
    ensures Chosen(x, y, first, i, j)
  {
    forall ms: seq<Match> | Longest(x, y, ms, i, j) && ms != [] ensures first.y <= ms[0].y && ms[0].x <= first.x {
      LongestNarrows(x, y, ms, i, j);
      assert ms[0].x == i && j < ms[0].y;
      assert Longest(x, y, ms, i, j + 1);
    }
  }

  lemma {:induction false} WalkChooses(x: seq<Line>, y: seq<Line>, i: nat, j: nat)
    requires i <= |x| && j <= |y| && Walk(x, y, i, j) != []
    ensures Chosen(x, y, Walk(x, y, i, j)[0], i, j)
    decreases |x| - i + |y| - j
  {
    if x[i] == y[j] {
      assert forall ms: seq<Match> :: Longest(x, y, ms, i, j) && ms != [] ==> j <= ms[0].y;
    } else {
      WalkIsCommon(x, y, i, j);
      if Len(x, y, i + 1, j) >= Len(x, y, i, j + 1) {
        WalkChooses(x, y, i + 1, j);
        DropFirst(x, y, i, j, Walk(x, y, i, j)[0]);
      } else {
        WalkChooses(x, y, i, j + 1);
        DropSecond(x, y, i, j, Walk(x, y, i, j)[0]);
      }
    }
  }

  /** After its first match, the walk is the walk from there. */
  lemma {:induction false} WalkTail(x: seq<Line>, y: seq<Line>, i: nat, j: nat)
    requires i <= |x| && j <= |y| && Walk(x, y, i, j) != []
    ensures var w := Walk(x, y, i, j);
            w[0].x < |x| && w[0].y < |y| && w[1..] == Walk(x, y, w[0].x + 1, w[0].y + 1)
    decreases |x| - i + |y| - j
  {
    if x[i] != y[j] {
      if Len(x, y, i + 1, j) >= Len(x, y, i, j + 1) { WalkTail(x, y, i + 1, j); } else { WalkTail(x, y, i, j + 1); }
    }
  }

  lemma {:induction false} WalkAllChosen(x: seq<Line>, y: seq<Line>, i: nat, j: nat)
    requires i <= |x| && j <= |y|
    ensures AllChosen(x, y, Walk(x, y, i, j), i, j)
    decreases |x| - i + |y| - j
  {
    var w := Walk(x, y, i, j);
    if w != [] {
      WalkChooses(x, y, i, j);
      WalkTail(x, y, i, j);
      WalkAllChosen(x, y, w[0].x + 1, w[0].y + 1);
    }
  }

  lemma LongestTail(x: seq<Line>, y: seq<Line>, ms: seq<Match>, i: nat, j: nat)
    requires Longest(x, y, ms, i, j) && ms != []
    ensures Longest(x, y, ms[1..], ms[0].x + 1, ms[0].y + 1)
  {
    var h := ms[0];
    CommonTail(x, y, ms, i, j);
    CommonBound(x, y, ms[1..], h.x + 1, h.y + 1);
    var w := Walk(x, y, h.x + 1, h.y + 1);
    WalkIsCommon(x, y, h.x + 1, h.y + 1);
    CommonCons(x, y, w, h.x, h.y);
    CommonWiden(x, y, [h] + w, i, j, h.x, h.y);
    CommonBound(x, y, [h] + w, i, j);
  }

  /** There is only one longest common subsequence all of whose matches are chosen. */
  lemma {:induction false} ChoiceIsUnique(x: seq<Line>, y: seq<Line>, ms: seq<Match>, ns: seq<Match>, i: nat, j: nat)
    requires Longest(x, y, ms, i, j) && AllChosen(x, y, ms, i, j)
    requires Longest(x, y, ns, i, j) && AllChosen(x, y, ns, i, j)
    ensures ms == ns
    decreases |ms|
  {
    if ms != [] {
      assert ms[0].y == ns[0].y;
      assert x[ms[0].x] == y[ms[0].y] && x[ns[0].x] == y[ns[0].y];
      assert ms[0].x == ns[0].x;
      LongestTail(x, y, ms, i, j);
      LongestTail(x, y, ns, i, j);
      ChoiceIsUnique(x, y, ms[1..], ns[1..], ms[0].x + 1, ms[0].y + 1);
      assert ms == [ms[0]] + ms[1..] && ns == [ns[0]] + ns[1..];
    }
  }

  // ---- The table -----------------------------------------------------------------------------------

  /** Index of cell (i, j) in the flat table. */
  function At(width: nat, i: nat, j: nat): nat {
    i * width + j
  }

  ghost predicate Cell(x: seq<Line>, y: seq<Line>, table: seq<int>, i: nat, j: nat)
    requires i <= |x| && j <= |y|
  {
    var at := At(|y| + 1, i, j);
    at < |table| && table[at] == Len(x, y, i, j)
  }

  lemma CellInRange(n: nat, width: nat, i: nat, j: nat)
    requires i <= n && j < width
    ensures At(width, i, j) < (n + 1) * width
  {
    assert i * width <= n * width;
    assert (n + 1) * width == n * width + width;
  }

  lemma RowsApart(width: nat, i: nat, j: nat, i': nat, j': nat)
    requires j < width && i < i'
    ensures At(width, i, j) < At(width, i', j')
  {
    assert (i + 1) * width <= i' * width;
    assert (i + 1) * width == i * width + width;
  }

  lemma CellsApart(width: nat, i: nat, j: nat, i': nat, j': nat)
    requires j < width && j' < width && (i != i' || j != j')
    ensures At(width, i, j) != At(width, i', j')
  {
    if i < i' {
      RowsApart(width, i, j, i', j');
    } else if i > i' {
      RowsApart(width, i', j', i, j);
    } else {
      assert i * width == i' * width;
    }
  }

  /** Everything after cell (i, j) in the backward order is filled, and so are the borders. */
  ghost predicate Filled(x: seq<Line>, y: seq<Line>, table: seq<int>, i: nat, j: nat) {
    && |table| == (|x| + 1) * (|y| + 1)
    && forall i', j' :: 0 <= i' <= |x| && 0 <= j' <= |y| && (i' > i || j' == |y| || (i' == i && j' >= j)) ==>
                          Cell(x, y, table, i', j')
  }

  lemma FillCell(x: seq<Line>, y: seq<Line>, table: seq<int>, i: nat, j: nat)
    requires i < |x| && j < |y| && Filled(x, y, table, i, j + 1)
    ensures var width := |y| + 1;
            && At(width, i, j) < |table|
            && Filled(x, y, table[At(width, i, j) := Len(x, y, i, j)], i, j)
  {
    hide At;
    var width := |y| + 1;
    CellInRange(|x|, width, i, j);
    var after := table[At(width, i, j) := Len(x, y, i, j)];
    forall i', j' | 0 <= i' <= |x| && 0 <= j' <= |y| && (i' > i || j' == |y| || (i' == i && j' >= j))
      ensures Cell(x, y, after, i', j')
    {
      if i' != i || j' != j {
        assert Cell(x, y, table, i', j');
        CellsApart(width, i, j, i', j');
      }
    }
  }

  /** Fills the table backwards, row by row, as both diffs do. */
  method FillTable(x: seq<Line>, y: seq<Line>) returns (table: array<int>)
    ensures fresh(table)
    ensures forall i, j :: 0 <= i <= |x| && 0 <= j <= |y| ==> Cell(x, y, table[..], i, j)
  {
    hide At;
    var n, m := |x|, |y|;
    var width := m + 1;
    table := new int[(n + 1) * width](_ => 0);
    forall i, j | 0 <= i <= n && 0 <= j <= m && (i == n || j == m)
      ensures Cell(x, y, table[..], i, j)
    {
      CellInRange(n, width, i, j);
    }
    var i := n;
    while i > 0
      invariant 0 <= i <= n && Filled(x, y, table[..], i, 0)
    {
      i := i - 1;
      var j := m;
      while j > 0
        invariant 0 <= j <= m && Filled(x, y, table[..], i, j)
      {
        j := j - 1;
        FillCell(x, y, table[..], i, j);
        assert Cell(x, y, table[..], i + 1, j + 1) && Cell(x, y, table[..], i + 1, j)
            && Cell(x, y, table[..], i, j + 1);
        table[At(width, i, j)] :=
          if x[i] == y[j] then table[At(width, i + 1, j + 1)] + 1
          else if table[At(width, i + 1, j)] >= table[At(width, i, j + 1)] then table[At(width, i + 1, j)]
          else table[At(width, i, j + 1)];
      }
    }
  }

  /**
   * The matched index pairs in increasing order: a longest common subsequence, and the one whose every match is
   * the chosen one.
   */
  method LcsMatches(x: seq<Line>, y: seq<Line>) returns (matches: seq<Match>)
    ensures matches == Walk(x, y, 0, 0)
    ensures Longest(x, y, matches, 0, 0) && AllChosen(x, y, matches, 0, 0)
    ensures forall ms :: Common(x, y, ms, 0, 0) ==> |ms| <= |matches|
  {
    matches := WalkTable(x, y);
    WalkIsLongest(x, y, 0, 0);
    WalkAllChosen(x, y, 0, 0);
  }

  /** The walk, read off the table. */
  method WalkTable(x: seq<Line>, y: seq<Line>) returns (matches: seq<Match>)
    ensures matches == Walk(x, y, 0, 0)
  {
    hide At;
    var table := FillTable(x, y);
    var n, m := |x|, |y|;
    var width := m + 1;
    matches := [];
    var i, j := 0, 0;
    while i < n && j < m
      invariant 0 <= i <= n && 0 <= j <= m
      invariant matches + Walk(x, y, i, j) == Walk(x, y, 0, 0)
      decreases n - i + m - j
    {
      assert Cell(x, y, table[..], i + 1, j) && Cell(x, y, table[..], i, j + 1);
      if x[i] == y[j] {
        assert matches + Walk(x, y, i, j) == (matches + [Match(i, j)]) + Walk(x, y, i + 1, j + 1);
        matches := matches + [Match(i, j)];
        i, j := i + 1, j + 1;
      } else if table[At(width, i + 1, j)] >= table[At(width, i, j + 1)] {
        i := i + 1;
      } else {
        j := j + 1;
      }
    }
  }
}
