/** Base64 of section 4 of RFC 4648: encoding, the sliced decoder and the canonical-form check. */
module Base64 {

  import opened Options

  type Byte = x: nat | x < 256

  type Sextet = x: nat | x < 64

  // ---- The alphabet ----------------------------------------------------------------------------------

  predicate IsDigit(c: char) {
    'A' <= c <= 'Z' || 'a' <= c <= 'z' || '0' <= c <= '9' || c == '+' || c == '/'
  }

  function DigitOf(v: Sextet): char {
    if v < 26 then (65 + v) as char
    else if v < 52 then (97 + v - 26) as char
    else if v < 62 then (48 + v - 52) as char
    else if v == 62 then '+' else '/'
  }

  function ValueOf(c: char): Sextet
    requires IsDigit(c)
  {
    if 'A' <= c <= 'Z' then c as nat - 65
    else if 'a' <= c <= 'z' then c as nat - 97 + 26
    else if '0' <= c <= '9' then c as nat - 48 + 52
    else if c == '+' then 62 else 63
  }

  lemma DigitRoundTrip(v: Sextet)
    ensures IsDigit(DigitOf(v)) && ValueOf(DigitOf(v)) == v
  {
  }

  lemma ValueRoundTrip(c: char)
    requires IsDigit(c)
    ensures DigitOf(ValueOf(c)) == c
  {
  }

  /** The table of section 4 of RFC 4648: the runs A-Z, a-z and 0-9 in order, then + and /. */
  lemma DigitTable(v: Sextet)
    ensures DigitOf(0) == 'A' && DigitOf(25) == 'Z' && DigitOf(26) == 'a' && DigitOf(51) == 'z'
    ensures DigitOf(52) == '0' && DigitOf(61) == '9' && DigitOf(62) == '+' && DigitOf(63) == '/'
    ensures v < 61 && v != 25 && v != 51 ==> DigitOf(v + 1) as nat == DigitOf(v) as nat + 1
  {
  }

  predicate Digits(s: string) {
    forall i :: 0 <= i < |s| ==> IsDigit(s[i])
  }

  // ---- Three bytes as four sextets -----------------------------------------------------------------------

  function First(x: Byte): Sextet { x / 4 }
  function Second(x: Byte, y: Byte): Sextet { x % 4 * 16 + y / 16 }
  function Third(y: Byte, z: Byte): Sextet { y % 16 * 4 + z / 64 }
  function Fourth(z: Byte): Sextet { z % 64 }

  function Left(v0: Sextet, v1: Sextet): Byte { v0 * 4 + v1 / 16 }
  function Middle(v1: Sextet, v2: Sextet): Byte { v1 % 16 * 16 + v2 / 4 }
  function Right(v2: Sextet, v3: Sextet): Byte { v2 % 4 * 64 + v3 }

  /** The sextets are the bytes' bits, most significant first. */
  lemma SameNumber(x: Byte, y: Byte, z: Byte)
    ensures First(x) * 262144 + Second(x, y) * 4096 + Third(y, z) * 64 + Fourth(z) == x * 65536 + y * 256 + z
  {
    assert x == 4 * (x / 4) + x % 4 && y == 16 * (y / 16) + y % 16 && z == 64 * (z / 64) + z % 64;
  }

  lemma LeftBack(x: Byte, y: Byte)
    ensures Left(First(x), Second(x, y)) == x
  {
  }

  lemma MiddleBack(x: Byte, y: Byte, z: Byte)
    ensures Middle(Second(x, y), Third(y, z)) == y
  {
    assert Second(x, y) % 16 == y / 16;
    assert Third(y, z) / 4 == y % 16;
  }

  lemma RightBack(y: Byte, z: Byte)
    ensures Right(Third(y, z), Fourth(z)) == z
  {
    assert Third(y, z) % 4 == z / 64;
  }

  lemma FirstBack(v0: Sextet, v1: Sextet)
    ensures First(Left(v0, v1)) == v0
  {
  }

  lemma SecondBack(v0: Sextet, v1: Sextet, v2: Sextet)
    ensures Second(Left(v0, v1), Middle(v1, v2)) == v1
  {
    assert Left(v0, v1) % 4 == v1 / 16;
    assert Middle(v1, v2) / 16 == v1 % 16;
  }

  lemma ThirdBack(v1: Sextet, v2: Sextet, v3: Sextet)
    ensures Third(Middle(v1, v2), Right(v2, v3)) == v2
  {
    assert Middle(v1, v2) % 16 == v2 / 4;
    assert Right(v2, v3) / 64 == v2 % 4;
  }

  lemma FourthBack(v2: Sextet, v3: Sextet)
    ensures Fourth(Right(v2, v3)) == v3
  {
  }

  function Sextets(b: seq<Byte>): seq<Sextet> {
    if b == [] then []
    else if |b| == 1 then [First(b[0]), Second(b[0], 0)]
    else if |b| == 2 then [First(b[0]), Second(b[0], b[1]), Third(b[1], 0)]
    else [First(b[0]), Second(b[0], b[1]), Third(b[1], b[2]), Fourth(b[2])] + Sextets(b[3..])
  }

  /** Whole bytes from the sextets; bits left over at the end are dropped. */
  function Bytes(v: seq<Sextet>): seq<Byte> {
    if |v| < 2 then []
    else if |v| == 2 then [Left(v[0], v[1])]
    else if |v| == 3 then [Left(v[0], v[1]), Middle(v[1], v[2])]
    else [Left(v[0], v[1]), Middle(v[1], v[2]), Right(v[2], v[3])] + Bytes(v[4..])
  }

  lemma {:induction false} SextetsLength(b: seq<Byte>)
    ensures |Sextets(b)| == |b| / 3 * 4 + (if |b| % 3 == 0 then 0 else |b| % 3 + 1)
  {
    if |b| >= 3 { SextetsLength(b[3..]); }
  }

  lemma {:induction false} BytesLength(v: seq<Sextet>)
    ensures |Bytes(v)| == |v| * 3 / 4
  {
    if |v| >= 4 { BytesLength(v[4..]); }
  }

  lemma {:induction false} BytesBack(b: seq<Byte>)
    ensures Bytes(Sextets(b)) == b
  {
    hide First, Second, Third, Fourth, Left, Middle, Right;
    if |b| == 1 {
      LeftBack(b[0], 0);
    } else if |b| == 2 {
      LeftBack(b[0], b[1]);
      MiddleBack(b[0], b[1], 0);
    } else if |b| >= 3 {
      BytesBack(b[3..]);
      TripleBack(b);
      assert b == [b[0], b[1], b[2]] + b[3..];
    }
  }

  /** A whole triple comes back, and the rest is the rest's own business. */
  lemma TripleBack(b: seq<Byte>)
    requires |b| >= 3
    ensures Bytes(Sextets(b)) == [b[0], b[1], b[2]] + Bytes(Sextets(b[3..]))
  {
    hide First, Second, Third, Fourth, Left, Middle, Right;
    var v := [First(b[0]), Second(b[0], b[1]), Third(b[1], b[2]), Fourth(b[2])] + Sextets(b[3..]);
    assert Sextets(b) == v;
    BytesOfQuartet(v);
    assert v[4..] == Sextets(b[3..]);
    hide Sextets, Bytes;
    LeftBack(b[0], b[1]);
    MiddleBack(b[0], b[1], b[2]);
    RightBack(b[1], b[2]);
  }

  /** Decoding in pieces of whole quartets. */
  lemma {:induction false} BytesSplit(v: seq<Sextet>, k: nat)
    requires k <= |v| && k % 4 == 0
    ensures Bytes(v) == Bytes(v[..k]) + Bytes(v[k..])
  {
    hide Left, Middle, Right;
    if k == 0 {
      assert v[0..] == v;
    } else {
      BytesSplit(v[4..], k - 4);
      assert v[..k][4..] == v[4..][..k - 4];
      assert v[k..] == v[4..][k - 4..];
    }
  }

  /** The bits of the last sextet that no byte takes are zero. */
  predicate NoLostBits(v: seq<Sextet>) {
    && (|v| % 4 == 2 ==> v[|v| - 1] % 16 == 0)
    && (|v| % 4 == 3 ==> v[|v| - 1] % 4 == 0)
  }

  lemma {:induction false} SextetsBackIff(v: seq<Sextet>)
    requires |v| % 4 != 1
    ensures Sextets(Bytes(v)) == v <==> NoLostBits(v)
  {
    if |v| >= 4 {
      SextetsBackIff(v[4..]);
      QuartetBack(v);
      LostBitsOfRest(v);
      hide Sextets, Bytes;
      assert v == [v[0], v[1], v[2], v[3]] + v[4..];
      var back := Sextets(Bytes(v));
      assert back[4..] == Sextets(Bytes(v[4..]));
    } else if |v| == 2 {
      FirstBack(v[0], v[1]);
      assert Sextets(Bytes(v)) == [v[0], v[1] / 16 * 16];
    } else if |v| == 3 {
      FirstBack(v[0], v[1]);
      SecondBack(v[0], v[1], v[2]);
      assert Third(Middle(v[1], v[2]), 0) == v[2] / 4 * 4;
      assert Sextets(Bytes(v)) == [v[0], v[1], v[2] / 4 * 4];
    }
  }

  lemma SextetsOfTriple(x: Byte, y: Byte, z: Byte, rest: seq<Byte>)
    ensures Sextets([x, y, z] + rest) == [First(x), Second(x, y), Third(y, z), Fourth(z)] + Sextets(rest)
  {
    hide First, Second, Third, Fourth;
    assert ([x, y, z] + rest)[3..] == rest;
  }

  lemma BytesOfQuartet(v: seq<Sextet>)
    requires |v| >= 4
    ensures Bytes(v) == [Left(v[0], v[1]), Middle(v[1], v[2]), Right(v[2], v[3])] + Bytes(v[4..])
  {
  }

  lemma LostBitsOfRest(v: seq<Sextet>)
    requires |v| >= 4
    ensures NoLostBits(v) <==> NoLostBits(v[4..])
  {
    assert |v[4..]| % 4 == |v| % 4;
    assert |v| > 4 ==> v[4..][|v| - 5] == v[|v| - 1];
  }

  lemma FourBack(v0: Sextet, v1: Sextet, v2: Sextet, v3: Sextet)
    ensures var (x, y, z) := (Left(v0, v1), Middle(v1, v2), Right(v2, v3));
            [First(x), Second(x, y), Third(y, z), Fourth(z)] == [v0, v1, v2, v3]
  {
    hide First, Second, Third, Fourth, Left, Middle, Right;
    FirstBack(v0, v1);
    SecondBack(v0, v1, v2);
    ThirdBack(v1, v2, v3);
    FourthBack(v2, v3);
  }

  /** A whole quartet comes back, and the rest is the rest's own business. */
  lemma QuartetBack(v: seq<Sextet>)
    requires |v| >= 4
    ensures Sextets(Bytes(v)) == [v[0], v[1], v[2], v[3]] + Sextets(Bytes(v[4..]))
  {
    hide First, Second, Third, Fourth, Left, Middle, Right, Sextets, Bytes;
    BytesOfQuartet(v);
    FourBack(v[0], v[1], v[2], v[3]);
    SextetsOfTriple(Left(v[0], v[1]), Middle(v[1], v[2]), Right(v[2], v[3]), Bytes(v[4..]));
  }

  // ---- Without padding ---------------------------------------------------------------------------------

  function Values(u: string): (v: seq<Sextet>)
    requires Digits(u)
  {
    seq(|u|, i requires 0 <= i < |u| => ValueOf(u[i]))
  }

  function EncodeBody(b: seq<Byte>): (s: string)
    ensures |s| == |Sextets(b)| && Digits(s) && Values(s) == Sextets(b)
  {
    var v := Sextets(b);
    var s := seq(|v|, i requires 0 <= i < |v| => DigitOf(v[i]));
    assert forall i :: 0 <= i < |v| ==> IsDigit(s[i]) && ValueOf(s[i]) == v[i] by {
      forall i | 0 <= i < |v| ensures IsDigit(s[i]) && ValueOf(s[i]) == v[i] { DigitRoundTrip(v[i]); }
    }
    assert Values(s) == v;
    s
  }

  function DecodeBody(u: string): seq<Byte>
    requires Digits(u)
  {
    Bytes(Values(u))
  }

  /** Digits are determined by their values. */
  lemma SameValues(s: string, t: string)
    requires Digits(s) && Digits(t)
    ensures Values(s) == Values(t) <==> s == t
  {
    if Values(s) == Values(t) {
      forall i | 0 <= i < |s| ensures |s| == |t| && s[i] == t[i] {
        assert |Values(s)| == |Values(t)| && Values(s)[i] == Values(t)[i];
        ValueRoundTrip(s[i]);
        ValueRoundTrip(t[i]);
      }
      assert |Values(s)| == |Values(t)|;
    }
  }

  lemma DecodeSplits(u: string, k: nat)
    requires Digits(u) && k <= |u| && k % 4 == 0
    ensures DecodeBody(u) == DecodeBody(u[..k]) + DecodeBody(u[k..])
  {
    BytesSplit(Values(u), k);
    assert Values(u)[..k] == Values(u[..k]);
    assert Values(u)[k..] == Values(u[k..]);
  }

  lemma BodyBackIff(u: string)
    requires Digits(u) && |u| % 4 != 1
    ensures EncodeBody(DecodeBody(u)) == u <==> NoLostBits(Values(u))
  {
    SextetsBackIff(Values(u));
    SameValues(EncodeBody(DecodeBody(u)), u);
  }

  // ---- With padding -------------------------------------------------------------------------------------

  /** Where the padding begins: one or two trailing `=` are padding. */
  function BodyEnd(s: string): (n: nat)
    ensures n <= |s|
  {
    if |s| >= 2 && s[|s| - 1] == '=' then (if s[|s| - 2] == '=' then |s| - 2 else |s| - 1)
    else if s == "=" then 0 else |s|
  }

  function Encode(b: seq<Byte>): string {
    EncodeBody(b) + (if |b| % 3 == 1 then "==" else if |b| % 3 == 2 then "=" else "")
  }

  /** Quartets of digits, padded only at the very end. */
  predicate Canonical(s: string) {
    |s| % 4 == 0 && Digits(s[..BodyEnd(s)])
  }

  /** The same language as a grammar: full quartets, then possibly one quartet ending in `=` or `==`. */
  predicate Grammar(s: string) {
    || s == ""
    || (|s| == 4 && IsDigit(s[0]) && IsDigit(s[1]) && s[3] == '=' && (IsDigit(s[2]) || s[2] == '='))
    || (|s| >= 4 && Digits(s[..4]) && Grammar(s[4..]))
  }

  lemma {:induction false} CanonicalIsGrammar(s: string)
    ensures Canonical(s) <==> Grammar(s)
  {
    if |s| > 4 {
      var rest := s[4..];
      CanonicalIsGrammar(rest);
      if |s| % 4 == 0 {
        assert BodyEnd(s) == BodyEnd(rest) + 4;
        assert s[..BodyEnd(s)] == s[..4] + rest[..BodyEnd(rest)];
      }
    } else if |s| == 4 {
      assert s[4..] == "";
      assert s == [s[0], s[1], s[2], s[3]];
    }
  }

  method IsCanonicalBase64(value: string) returns (ok: bool)
    ensures ok <==> Canonical(value)
  {
    if |value| % 4 != 0 {
      return false;
    }
    var bodyEnd := |value|;
    if |value| > 0 && value[|value| - 1] == '=' {
      bodyEnd := if value[|value| - 2] == '=' then |value| - 2 else |value| - 1;
    }
    for index := 0 to bodyEnd
      invariant forall i :: 0 <= i < index ==> IsDigit(value[i])
    {
      if !IsDigit(value[index]) {
        assert value[..bodyEnd][index] == value[index];
        return false;
      }
    }
    return true;
  }

  /** Every encoding is canonical, and its digits are where they are looked for. */
  lemma EncodeIsCanonical(b: seq<Byte>)
    ensures Canonical(Encode(b)) && Encode(b)[..BodyEnd(Encode(b))] == EncodeBody(b)
  {
    var s, u := Encode(b), EncodeBody(b);
    EncodedLength(b);
    var pad := if |b| % 3 == 1 then "==" else if |b| % 3 == 2 then "=" else "";
    assert s == u + pad;
    hide EncodeBody, Encode;
    PaddedEnd(u, pad);
    assert s[..|u|] == u;
  }

  lemma EncodedLength(b: seq<Byte>)
    ensures |EncodeBody(b)| + (if |b| % 3 == 1 then 2 else if |b| % 3 == 2 then 1 else 0) == (|b| + 2) / 3 * 4
  {
    SextetsLength(b);
  }

  lemma PaddedEnd(u: string, pad: string)
    requires Digits(u) && (pad == "" || pad == "=" || pad == "==") && (|u| + |pad|) % 4 == 0
    ensures BodyEnd(u + pad) == |u|
  {
    assert u != [] ==> IsDigit(u[|u| - 1]);
  }

  // ---- The platform's decoder -----------------------------------------------------------------------------

  predicate IsSpace(c: char) {
    c == ' ' || c == '\t' || c == '\n' || c == '\r' || c == 12 as char
  }

  function WithoutSpace(s: string): string {
    if s == "" then "" else (if IsSpace(s[0]) then "" else [s[0]]) + WithoutSpace(s[1..])
  }

  /** `atob`: forgiving of white space and of missing padding, and nothing else. */
  function Atob(s: string): Option<seq<Byte>> {
    var t := WithoutSpace(s);
    var u := if |t| % 4 == 0 then t[..BodyEnd(t)] else t;
    if |u| % 4 == 1 || !Digits(u) then None else Some(DecodeBody(u))
  }

  lemma {:induction false} NothingStripped(s: string)
    requires forall i :: 0 <= i < |s| ==> IsDigit(s[i]) || s[i] == '='
    ensures WithoutSpace(s) == s
  {
    if s != "" {
      NothingStripped(s[1..]);
      assert s == [s[0]] + s[1..];
    }
  }

  /** On canonical text `atob` is the plain decoder. */
  lemma AtobCanonical(s: string)
    requires Canonical(s)
    ensures Atob(s) == Some(DecodeBody(s[..BodyEnd(s)]))
  {
    forall i | 0 <= i < |s| ensures IsDigit(s[i]) || s[i] == '=' {
      if i < BodyEnd(s) { assert s[..BodyEnd(s)][i] == s[i]; }
    }
    NothingStripped(s);
    assert |s[..BodyEnd(s)]| == BodyEnd(s);
  }

  // ---- Slicing ------------------------------------------------------------------------------------------------

  function Least(a: nat, b: nat): nat {
    if a < b then a else b
  }

  /** The slice's end, as `slice` and `subarray` clamp it. */
  function Clamp(offset: nat, width: nat, length: nat): (end: nat)
    requires offset <= length
    ensures offset <= end <= length
  {
    Least(offset + width, length)
  }

  method BytesToBase64(bytes: seq<Byte>, width: nat) returns (text: string)
    requires width > 0
    ensures text == Encode(bytes) && Canonical(text)
  {
    var binary := [];
    var offset := 0;
    while offset < |bytes|
      invariant binary == bytes[..Least(offset, |bytes|)]
      decreases |bytes| - offset
    {
      binary := binary + bytes[offset..Clamp(offset, width, |bytes|)];
      offset := offset + width;
    }
    assert binary == bytes;
    EncodeIsCanonical(bytes);
    return Encode(binary);
  }

  lemma QuartetApart(a: nat, b: nat)
    requires a % 4 == 0 && b % 4 == 0 && a < b
    ensures a + 4 <= b && (b - a) % 4 == 0
  {
  }

  /** A digit at the position before the end says there is no padding. */
  lemma SliceEnd(s: string, offset: nat, end: nat)
    requires offset + 4 <= end <= |s| && (end < |s| ==> end + 4 <= |s| && Digits(s[..end]))
    ensures offset <= BodyEnd(s) && BodyEnd(s[offset..end]) == Least(end, BodyEnd(s)) - offset
  {
    var slice := s[offset..end];
    var k := end - offset;
    assert |slice| == k && slice[k - 1] == s[end - 1] && slice[k - 2] == s[end - 2];
    assert end < |s| ==> IsDigit(s[..end][end - 1]);
  }

  lemma DigitsWithin(s: string, n: nat, offset: nat, end: nat)
    requires n <= |s| && Digits(s[..n]) && offset <= end <= n
    ensures Digits(s[offset..end])
  {
    assert s[offset..end] == s[..n][offset..end];
  }

  /** A slice of canonical text is canonical, and its digits are the text's digits there. */
  lemma SliceCanonical(s: string, offset: nat, end: nat)
    requires Canonical(s) && offset < end <= |s| && offset % 4 == 0 && (end % 4 == 0 || end == |s|)
    ensures var slice, n := s[offset..end], BodyEnd(s);
            && Canonical(slice)
            && offset <= n && slice[..BodyEnd(slice)] == s[offset..Least(end, n)]
  {
    var n := BodyEnd(s);
    QuartetApart(offset, end);
    if end < |s| {
      QuartetApart(end, |s|);
      assert end <= n;
      DigitsWithin(s, n, 0, end);
      assert s[0..end] == s[..end];
    }
    hide Digits, BodyEnd;
    SliceEnd(s, offset, end);
    assert s[offset..end][..Least(end, n) - offset] == s[offset..Least(end, n)];
    DigitsWithin(s, n, offset, Least(end, n));
  }

  /** The next slice carries the decoding of the digits on from its offset. */
  lemma NextSlice(s: string, offset: nat, end: nat)
    requires Canonical(s) && offset < end <= |s| && offset % 4 == 0 && (end % 4 == 0 || end == |s|)
    ensures var n := BodyEnd(s);
            var done := Least(end, n);
            && offset <= n && Digits(s[..offset]) && Digits(s[..done]) && Atob(s[offset..end]).Some?
            && DecodeBody(s[..done]) == DecodeBody(s[..offset]) + Atob(s[offset..end]).value
  {
    var n := BodyEnd(s);
    var done := Least(end, n);
    SliceCanonical(s, offset, end);
    AtobCanonical(s[offset..end]);
    assert forall i :: 0 <= i < n ==> s[..n][i] == s[i];
    DecodeSplits(s[..done], offset);
    assert s[..done][..offset] == s[..offset];
    assert s[..done][offset..] == s[offset..done];
  }

  /** What the slices from `offset` on decode to, one after the other; nothing if one of them is refused. */
  function Sliced(s: string, offset: nat, width: nat): Option<seq<Byte>>
    requires width > 0
    decreases |s| - offset
  {
    if offset >= |s| then Some([])
    else
      var slice := Atob(s[offset..Clamp(offset, width, |s|)]);
      if slice.None? then None else Joined(slice.value, Sliced(s, offset + width, width))
  }

  function Joined(front: seq<Byte>, rest: Option<seq<Byte>>): Option<seq<Byte>> {
    if rest.None? then None else Some(front + rest.value)
  }

  lemma JoinedEmpty(front: seq<Byte>, rest: Option<seq<Byte>>)
    ensures Joined([], rest) == rest && Joined(front, Some([])) == Some(front)
  {
    assert rest.Some? ==> [] + rest.value == rest.value;
    assert front + [] == front;
  }

  lemma JoinedTwice(a: seq<Byte>, b: seq<Byte>, rest: Option<seq<Byte>>)
    ensures Joined(a, Joined(b, rest)) == Joined(a + b, rest)
  {
    assert rest.Some? ==> a + (b + rest.value) == (a + b) + rest.value;
  }

  /** A whole number of quartets. */
  predicate Whole(n: nat) {
    n % 4 == 0
  }

  /** The next slice decodes to what follows. */
  lemma NextDecoded(s: string, offset: nat, width: nat)
    requires Canonical(s) && offset < |s| && Whole(offset) && width > 0 && Whole(width)
    ensures var n, slice := BodyEnd(s), Atob(s[offset..Clamp(offset, width, |s|)]);
            var done := Least(offset + width, n);
            && Least(offset, n) == offset && Digits(s[..offset]) && Digits(s[..done]) && slice.Some?
            && DecodeBody(s[..done]) == DecodeBody(s[..offset]) + slice.value
  {
    hide Canonical, Digits, BodyEnd, DecodeBody, Atob;
    var end, n := Clamp(offset, width, |s|), BodyEnd(s);
    Aligned(offset, width);
    NextSlice(s, offset, end);
    assert Least(end, n) == Least(offset + width, n);
  }

  lemma CanonicalDigits(s: string, offset: nat)
    requires Canonical(s)
    ensures Digits(s[..BodyEnd(s)]) && (offset >= |s| ==> Least(offset, BodyEnd(s)) == BodyEnd(s))
  {
  }

  /** Slices of canonical text never fail, and carry the decoding on to its end. */
  lemma {:induction false} SlicedFrom(s: string, offset: nat, width: nat)
    requires Canonical(s) && Whole(offset) && width > 0 && Whole(width)
    ensures var n := BodyEnd(s);
            && Digits(s[..n]) && Digits(s[..Least(offset, n)])
            && Joined(DecodeBody(s[..Least(offset, n)]), Sliced(s, offset, width)) == Some(DecodeBody(s[..n]))
    decreases |s| - offset
  {
    hide Canonical, Digits, BodyEnd, DecodeBody, Atob, Clamp, Least, Joined, Whole;
    var n := BodyEnd(s);
    CanonicalDigits(s, offset);
    if offset < |s| {
      var slice := Atob(s[offset..Clamp(offset, width, |s|)]);
      NextDecoded(s, offset, width);
      Aligned(offset, width);
      SlicedFrom(s, offset + width, width);
      JoinedTwice(DecodeBody(s[..offset]), slice.value, Sliced(s, offset + width, width));
    } else {
      JoinedEmpty(DecodeBody(s[..n]), None);
    }
  }

  /** On canonical text the slices give the decoding of the digits, and exactly as many bytes as the buffer holds. */
  lemma SlicedCanonical(s: string, width: nat)
    requires Canonical(s) && width > 0 && Whole(width)
    ensures Digits(s[..BodyEnd(s)]) && Sliced(s, 0, width) == Some(DecodeBody(s[..BodyEnd(s)]))
    ensures |DecodeBody(s[..BodyEnd(s)])| == BodyEnd(s) * 3 / 4
  {
    assert Least(0, BodyEnd(s)) == 0;
    hide Canonical, Digits, Atob, Sliced, DecodeBody, BodyEnd, Joined, Least;
    SlicedFrom(s, 0, width);
    NothingDecoded(s);
    JoinedEmpty([], Sliced(s, 0, width));
    DecodedLength(s[..BodyEnd(s)]);
  }

  lemma Aligned(offset: nat, width: nat)
    requires Whole(offset) && Whole(width)
    ensures Whole(offset + width)
  {
  }

  lemma NothingDecoded(s: string)
    ensures Digits(s[..0]) && DecodeBody(s[..0]) == []
  {
  }

  lemma DecodedLength(u: string)
    requires Digits(u)
    ensures |DecodeBody(u)| == |u| * 3 / 4
  {
    BytesLength(Values(u));
  }

  lemma PaddingLength(s: string, padding: nat)
    requires padding == if |s| >= 2 && s[|s| - 2..] == "==" then 2 else if |s| >= 1 && s[|s| - 1..] == "=" then 1 else 0
    ensures padding == |s| - BodyEnd(s)
  {
    assert |s| >= 2 ==> s[|s| - 2..] == [s[|s| - 2], s[|s| - 1]];
    assert |s| >= 1 ==> s[|s| - 1..] == [s[|s| - 1]];
  }

  /** Copies `data` into the buffer from `start` on, as far as the buffer goes. */
  method Fill(bytes: array<Byte>, start: nat, data: seq<Byte>)
    modifies bytes
    ensures forall i :: 0 <= i < bytes.Length ==>
              bytes[i] == if start <= i < start + |data| then data[i - start] else old(bytes[i])
  {
    for index := 0 to |data|
      invariant forall i :: 0 <= i < bytes.Length ==>
                  bytes[i] == if start <= i < start + index then data[i - start] else old(bytes[i])
    {
      if start + index < bytes.Length {
        bytes[start + index] := data[index];
      }
    }
  }

  /** The buffer holds the decoded bytes as far as they fit, and zeroes after them. */
  ghost predicate Holds(buffer: seq<Byte>, decoded: seq<Byte>) {
    forall i :: 0 <= i < |buffer| ==> buffer[i] == if i < |decoded| then decoded[i] else 0
  }

  /**
   * Decodes slice by slice into a buffer sized from the text's length and padding alone; fails exactly if a slice
   * is refused. Typed arrays ignore a write past their end. On canonical text none happens: as many bytes are
   * written as the buffer holds, and they are the decoding.
   */
  method Base64ToBytes(s: string, width: nat) returns (bytes: array<Byte>, written: nat, ok: bool)
    requires width > 0 && Whole(width)
    ensures bytes.Length == BodyEnd(s) * 3 / 4
    ensures ok <==> Sliced(s, 0, width).Some?
    ensures ok ==> written == |Sliced(s, 0, width).value| && Holds(bytes[..], Sliced(s, 0, width).value)
    ensures Canonical(s) ==> ok && written == bytes.Length && bytes[..] == DecodeBody(s[..BodyEnd(s)])
  {
    hide Canonical, Digits, BodyEnd, DecodeBody, Atob, Clamp, Whole;
    var padding := if |s| >= 2 && s[|s| - 2..] == "==" then 2 else if |s| >= 1 && s[|s| - 1..] == "=" then 1 else 0;
    bytes := new Byte[(|s| - padding) * 3 / 4](_ => 0);
    PaddingLength(s, padding);
    if Canonical(s) {
      SlicedCanonical(s, width);
    }
    JoinedEmpty([], Sliced(s, 0, width));
    written := 0;
    var offset := 0;
    ghost var decoded: seq<Byte> := [];
    while offset < |s|
      invariant 0 <= offset && |decoded| == written && Holds(bytes[..], decoded)
      invariant Sliced(s, 0, width) == Joined(decoded, Sliced(s, offset, width))
      decreases |s| - offset
    {
      var binary := Atob(s[offset..Clamp(offset, width, |s|)]);
      if binary.None? {
        return bytes, written, false;
      }
      JoinedTwice(decoded, binary.value, Sliced(s, offset + width, width));
      Fill(bytes, written, binary.value);
      decoded := decoded + binary.value;
      written := written + |binary.value|;
      offset := offset + width;
    }
    JoinedEmpty(decoded, None);
    return bytes, written, true;
  }

  // ---- Round trips ---------------------------------------------------------------------------------------------

  /** What the sliced decoder gives for an encoding: the bytes that were encoded. */
  lemma EncodeRoundTrip(b: seq<Byte>)
    ensures Canonical(Encode(b)) && DecodeBody(Encode(b)[..BodyEnd(Encode(b))]) == b
  {
    EncodeIsCanonical(b);
    BytesBack(b);
  }

  /** Canonical text is what its bytes encode to exactly if its last digit drops no set bit. */
  lemma DecodeRoundTripIff(s: string)
    requires Canonical(s)
    ensures Encode(DecodeBody(s[..BodyEnd(s)])) == s <==> NoLostBits(Values(s[..BodyEnd(s)]))
  {
    var u := s[..BodyEnd(s)];
    BodyBackIff(u);
    SamePadding(s);
    hide Canonical, BodyEnd, Encode, DecodeBody, EncodeBody;
  }

  /** The padding is the one the number of decoded bytes calls for. */
  lemma SamePadding(s: string)
    requires Canonical(s)
    ensures var u := s[..BodyEnd(s)];
            |u| % 4 != 1 && (Encode(DecodeBody(u)) == s <==> EncodeBody(DecodeBody(u)) == u)
  {
    var n := BodyEnd(s);
    var u := s[..n];
    DecodedLength(u);
    var b := DecodeBody(u);
    hide DecodeBody, EncodeBody, Digits;
    PaddingCount(|s|, n, |b|);
    PaddingText(s);
    EncodeIsCanonical(b);
    assert Encode(b) == EncodeBody(b) + s[n..];
    assert s == u + s[n..];
    hide Encode, BodyEnd;
    SamePrefix(EncodeBody(b), u, s[n..]);
  }

  lemma SamePrefix(t: string, u: string, pad: string)
    ensures t + pad == u + pad <==> t == u
  {
    if t + pad == u + pad {
      assert |t + pad| == |u + pad|;
      assert t == (t + pad)[..|t|] == (u + pad)[..|u|] == u;
    }
  }

  lemma PaddingText(s: string)
    ensures s[BodyEnd(s)..] == [] || s[BodyEnd(s)..] == "=" || s[BodyEnd(s)..] == "=="
  {
  }

  lemma PaddingCount(length: nat, n: nat, count: nat)
    requires length % 4 == 0 && length - 2 <= n <= length && count == n * 3 / 4
    ensures n % 4 != 1
    ensures count % 3 == 0 <==> length == n
    ensures count % 3 == 1 <==> length == n + 2
  {
    var q := length / 4;
    assert length == 4 * q;
    assert count == 3 * q - (length - n);
  }

  /** The check accepts text that no bytes encode to. */
  lemma CanonicalNotEncoded(b: seq<Byte>)
    ensures Canonical("QR==") && Encode(b) != "QR=="
  {
    var s := "QR==";
    assert BodyEnd(s) == 2 && s[..2] == "QR" && Digits("QR");
    assert !NoLostBits(Values("QR"));
    DecodeRoundTripIff(s);
    EncodeRoundTrip(b);
    hide DecodeBody, Encode, EncodeBody;
  }
}
