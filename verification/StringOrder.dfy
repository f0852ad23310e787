/** The ascending order of identifiers and lock keys, and sets listed in that order. */
module StringOrder {

  /** Strict lexicographic order by character. */
  predicate Less(s: string, t: string) {
    if t == "" then false
    else if s == "" then true
    else if s[0] != t[0] then s[0] < t[0]
    else Less(s[1..], t[1..])
  }

  /** At the first place where they differ, the first string ends or has the smaller character. */
  ghost predicate DiffersAt(s: string, t: string, k: nat) {
    && k <= |s| && k < |t| && s[..k] == t[..k]
    && (k == |s| || s[k] < t[k])
  }

  lemma {:induction false} LessMeans(s: string, t: string)
    ensures Less(s, t) <==> exists k: nat :: DiffersAt(s, t, k)
  {
    if t != "" && (s == "" || s[0] < t[0]) {
      assert DiffersAt(s, t, 0);
    } else if t != "" && s[0] == t[0] {
      LessMeans(s[1..], t[1..]);
      if k: nat :| DiffersAt(s[1..], t[1..], k) {
        assert s[..k + 1] == [s[0]] + s[1..][..k] && t[..k + 1] == [t[0]] + t[1..][..k];
        assert DiffersAt(s, t, k + 1);
      }
      if k: nat :| DiffersAt(s, t, k) {
        assert s[1..][..k - 1] == s[..k][1..] && t[1..][..k - 1] == t[..k][1..];
        assert DiffersAt(s[1..], t[1..], k - 1);
      }
    } else {
      forall k: nat ensures !DiffersAt(s, t, k) {
        if 0 < k <= |s| && k <= |t| {
          assert s[0] == s[..k][0] && t[0] == t[..k][0];
        }
      }
    }
  }

  lemma {:induction false} LessTotal(s: string, t: string)
    ensures s == t || Less(s, t) || Less(t, s)
  {
    if s != "" && t != "" && s[0] == t[0] {
      LessTotal(s[1..], t[1..]);
      assert s == [s[0]] + s[1..] && t == [t[0]] + t[1..];
    }
  }

  lemma {:induction false} LessAsymmetric(s: string, t: string)
    ensures !(Less(s, t) && Less(t, s))
    ensures !Less(s, s)
  {
    if s != "" {
      LessAsymmetric(s[1..], s[1..]);
      if t != "" {
        LessAsymmetric(s[1..], t[1..]);
      }
    }
  }

  lemma {:induction false} LessTransitive(s: string, t: string, u: string)
    requires Less(s, t) && Less(t, u)
    ensures Less(s, u)
  {
    if s != "" && s[0] == t[0] && t[0] == u[0] {
      LessTransitive(s[1..], t[1..], u[1..]);
    }
  }

  /** Strictly ascending, hence without repeats. */
  predicate Ascending(xs: seq<string>) {
    forall i, j :: 0 <= i < j < |xs| ==> Less(xs[i], xs[j])
  }

  function Elements(xs: seq<string>): set<string> {
    set x | x in xs
  }

  predicate IsLeast(s: set<string>, m: string) {
    m in s && forall x :: x in s && x != m ==> Less(m, x)
  }

  lemma {:induction false} LeastExists(s: set<string>) returns (m: string)
    requires s != {}
    ensures IsLeast(s, m)
    decreases |s|
  {
    var x :| x in s;
    if s == {x} {
      m := x;
    } else {
      var m' := LeastExists(s - {x});
      LessTotal(x, m');
      if Less(x, m') {
        forall y | y in s && y != x && y != m' ensures Less(x, y) { LessTransitive(x, m', y); }
        m := x;
      } else {
        m := m';
      }
    }
  }

  lemma LeastUnique(s: set<string>, m: string, m': string)
    requires IsLeast(s, m) && IsLeast(s, m')
    ensures m == m'
  {
    LessAsymmetric(m, m');
  }

  lemma ElementsCons(x: string, xs: seq<string>)
    ensures Elements([x] + xs) == {x} + Elements(xs)
  {
  }

  lemma NoElements(xs: seq<string>)
    ensures Elements(xs) == {} <==> xs == []
  {
    if xs != [] {
      assert xs[0] in Elements(xs);
    }
  }

  /** The elements in ascending order. */
  function Sorted(s: set<string>): (xs: seq<string>)
    ensures Elements(xs) == s
    ensures Ascending(xs)
    decreases |s|
  {
    if s == {} then []
    else
      assert exists m :: IsLeast(s, m) by { var m := LeastExists(s); }
      assert forall m, m' :: IsLeast(s, m) && IsLeast(s, m') ==> m == m' by {
        forall m, m' | IsLeast(s, m) && IsLeast(s, m') ensures m == m' { LeastUnique(s, m, m'); }
      }
      var m :| IsLeast(s, m);
      var rest := Sorted(s - {m});
      assert forall i :: 0 <= i < |rest| ==> rest[i] in Elements(rest);
      ElementsCons(m, rest);
      [m] + rest
  }

  /** An ascending sequence is determined by its elements. */
  lemma {:induction false} AscendingUnique(xs: seq<string>, ys: seq<string>)
    requires Ascending(xs) && Ascending(ys) && Elements(xs) == Elements(ys)
    ensures xs == ys
    decreases |xs|
  {
    NoElements(xs);
    NoElements(ys);
    if xs != [] {
      assert xs[0] in Elements(xs) && ys[0] in Elements(ys);
      var k :| 0 <= k < |ys| && ys[k] == xs[0];
      var l :| 0 <= l < |xs| && xs[l] == ys[0];
      LessAsymmetric(xs[0], ys[0]);
      assert k == 0;
      TailElements(xs);
      TailElements(ys);
      AscendingUnique(xs[1..], ys[1..]);
    }
  }

  lemma TailElements(xs: seq<string>)
    requires xs != [] && Ascending(xs)
    ensures Elements(xs[1..]) == Elements(xs) - {xs[0]} && Ascending(xs[1..])
  {
    LessAsymmetric(xs[0], xs[0]);
    forall x | x in xs[1..] ensures x != xs[0] {
      var k :| 0 <= k < |xs[1..]| && xs[1..][k] == x;
      assert Less(xs[0], xs[k + 1]);
    }
  }
}
