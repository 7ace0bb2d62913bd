/**
 * UTF-16 and UTF-8, as JavaScript strings and URLs use them. A code point may be a lone
 * surrogate; a scalar value may not (section 3 of RFC 3629).
 */
module Unicode {
  import opened Text

  type CodePoint = c: int | 0 <= c <= 0x10FFFF
  type Byte = b: int | 0 <= b < 0x100

  predicate IsHigh(u: int) { 0xD800 <= u < 0xDC00 }
  predicate IsLow(u: int) { 0xDC00 <= u < 0xE000 }
  predicate IsScalar(c: int) { 0 <= c < 0xD800 || 0xE000 <= c <= 0x10FFFF }

  predicate Ascii(s: seq<int>) {
    forall i :: 0 <= i < |s| ==> 0 <= s[i] < 0x80
  }

  predicate AllScalars(cps: seq<CodePoint>) {
    forall i :: 0 <= i < |cps| ==> IsScalar(cps[i])
  }

  /* ------------------------------------------------------------------ UTF-16 */

  /** The code units of one code point. */
  function UnitsOf(c: CodePoint): (r: Str)
    ensures 1 <= |r| <= 2
    ensures IsScalar(c) && |r| == 1 ==> !IsHigh(r[0]) && !IsLow(r[0])
    ensures |r| == 2 ==> IsHigh(r[0]) && IsLow(r[1])
  {
    if c < 0x10000 then [c]
    else [0xD800 + (c - 0x10000) / 0x400, 0xDC00 + (c - 0x10000) % 0x400]
  }

  function Units(cps: seq<CodePoint>): (s: Str) {
    if cps == [] then [] else UnitsOf(cps[0]) + Units(cps[1..])
  }

  /** Number of code units the first code point of `s` takes. */
  function Width(s: Str): (w: nat)
    requires s != []
    ensures 1 <= w <= |s|
  {
    if |s| >= 2 && IsHigh(s[0]) && IsLow(s[1]) then 2 else 1
  }

  function FirstPoint(s: Str): (c: CodePoint)
    requires s != []
    ensures UnitsOf(c) == s[..Width(s)]
  {
    if Width(s) == 2 then
      var hi: int, lo: int := s[0], s[1];
      0x10000 + (hi - 0xD800) * 0x400 + (lo - 0xDC00)
    else s[0]
  }

  /** String iteration by code point; a lone surrogate stands for itself. */
  function CodePoints(s: Str): (cps: seq<CodePoint>)
  {
    if s == [] then [] else [FirstPoint(s)] + CodePoints(s[Width(s)..])
  }

  predicate WellFormed(s: Str) {
    AllScalars(CodePoints(s))
  }

  lemma {:induction false} UnitsOfCodePoints(s: Str)
    ensures Units(CodePoints(s)) == s
  {
    if s != [] {
      UnitsOfCodePoints(s[Width(s)..]);
      assert s[..Width(s)] + s[Width(s)..] == s;
    }
  }

  lemma {:induction false} UnitsConcat(a: seq<CodePoint>, b: seq<CodePoint>)
    ensures Units(a + b) == Units(a) + Units(b)
  {
    if a == [] {
      assert a + b == b;
    } else {
      UnitsConcat(a[1..], b);
      assert (a + b)[1..] == a[1..] + b && (a + b)[0] == a[0];
      assert UnitsOf(a[0]) + (Units(a[1..]) + Units(b)) == UnitsOf(a[0]) + Units(a[1..]) + Units(b);
    }
  }

  lemma FirstPointOf(c: CodePoint, t: Str)
    requires IsScalar(c)
    ensures var s := UnitsOf(c) + t; Width(s) == |UnitsOf(c)| && FirstPoint(s) == c
  {
    var s := UnitsOf(c) + t;
    assert s[0] == UnitsOf(c)[0];
    if c >= 0x10000 {
      assert s[1] == UnitsOf(c)[1];
    }
  }

  lemma {:induction false} CodePointsPrepend(c: CodePoint, t: Str)
    requires IsScalar(c)
    ensures CodePoints(UnitsOf(c) + t) == [c] + CodePoints(t)
  {
    FirstPointOf(c, t);
    assert (UnitsOf(c) + t)[|UnitsOf(c)|..] == t;
  }

  lemma {:induction false} CodePointsStep(c: CodePoint, cs: seq<CodePoint>, us: Str, t: Str)
    requires IsScalar(c)
    requires CodePoints(us + t) == cs + CodePoints(t)
    ensures CodePoints(UnitsOf(c) + us + t) == [c] + cs + CodePoints(t)
  {
    CodePointsPrepend(c, us + t);
    Regroup(UnitsOf(c), us, t);
    Regroup([c], cs, CodePoints(t));
  }

  lemma {:induction false} CodePointsOfUnits(cps: seq<CodePoint>, t: Str)
    requires AllScalars(cps)
    ensures CodePoints(Units(cps) + t) == cps + CodePoints(t)
    decreases |cps|
  {
    if cps == [] {
      assert Units(cps) + t == t;
    } else {
      CodePointsOfUnits(cps[1..], t);
      CodePointsStep(cps[0], cps[1..], Units(cps[1..]), t);
      assert [cps[0]] + cps[1..] == cps;
    }
  }

  lemma {:induction false} CodePointsOfScalars(cps: seq<CodePoint>)
    requires AllScalars(cps)
    ensures CodePoints(Units(cps)) == cps
  {
    CodePointsOfUnits(cps, []);
    assert Units(cps) + [] == Units(cps);
  }

  /** A string of units below the surrogate range is its own list of code points. */
  lemma {:induction false} CodePointsOfAscii(s: Str)
    requires Ascii(s)
    ensures CodePoints(s) == s
  {
    if s != [] {
      CodePointsOfAscii(s[1..]);
      assert [s[0]] + s[1..] == s;
    }
  }

  lemma {:induction false} WellFormedPrepend(c: CodePoint, t: Str)
    requires IsScalar(c)
    ensures WellFormed(UnitsOf(c) + t) <==> WellFormed(t)
    ensures CodePoints(UnitsOf(c) + t) == [c] + CodePoints(t)
  {
    CodePointsPrepend(c, t);
    var cps := CodePoints(t);
    assert forall i :: 0 <= i < |cps| ==> ([c] + cps)[i + 1] == cps[i];
  }

  lemma LoneUnit(u: Unit)
    ensures CodePoints([u]) == [u]
    ensures WellFormed([u]) <==> !IsHigh(u) && !IsLow(u)
  {
    assert [u][1..] == [];
    assert CodePoints([u])[0] == u;
  }

  /** Cutting `s` after `n` units, where `s` spells the scalars `cps`. */
  ghost predicate CutAt(s: Str, cps: seq<CodePoint>, n: nat)
    requires 0 < n <= |s|
  {
    && (WellFormed(s[..n]) <==> !IsHigh(s[n - 1]))
    && (!IsHigh(s[n - 1]) ==> CodePoints(s[..n]) <= cps)
  }

  lemma CutInside(c: CodePoint, cs: seq<CodePoint>, rest: Str)
    requires IsScalar(c)
    ensures |UnitsOf(c)| == 2 ==> CutAt(UnitsOf(c) + rest, [c] + cs, 1)
    ensures CutAt(UnitsOf(c) + rest, [c] + cs, |UnitsOf(c)|)
  {
    var u := UnitsOf(c);
    LoneUnit(u[0]);
    assert (u + rest)[..1] == [u[0]];
    assert (u + rest)[..|u|] == u + [];
    WellFormedPrepend(c, []);
  }

  lemma CutBeyond(c: CodePoint, cs: seq<CodePoint>, rest: Str, n: nat)
    requires IsScalar(c)
    requires 0 < n <= |rest| && CutAt(rest, cs, n)
    ensures CutAt(UnitsOf(c) + rest, [c] + cs, |UnitsOf(c)| + n)
  {
    var u := UnitsOf(c);
    assert (u + rest)[..|u| + n] == u + rest[..n];
    assert (u + rest)[|u| + n - 1] == rest[n - 1];
    WellFormedPrepend(c, rest[..n]);
  }

  /**
   * Cutting a well-formed string after `n` units leaves a well-formed string exactly when the
   * last unit kept is not the first half of a surrogate pair; what is left is then a prefix of
   * the code points.
   */
  lemma {:induction false} CutOfScalars(cps: seq<CodePoint>, n: nat)
    requires AllScalars(cps)
    requires 0 < n <= |Units(cps)|
    ensures WellFormed(Units(cps)[..n]) <==> !IsHigh(Units(cps)[n - 1])
    ensures !IsHigh(Units(cps)[n - 1]) ==> CodePoints(Units(cps)[..n]) <= cps
    decreases |cps|
  {
    var rest := Units(cps[1..]);
    var w := |UnitsOf(cps[0])|;
    if n <= w {
      CutInside(cps[0], cps[1..], rest);
    } else {
      CutOfScalars(cps[1..], n - w);
      CutBeyond(cps[0], cps[1..], rest, n - w);
    }
    assert [cps[0]] + cps[1..] == cps;
    assert CutAt(Units(cps), cps, n);
  }

  /* ------------------------------------------------------------------- UTF-8 */

  function Utf8Of(c: CodePoint): (r: seq<Byte>)
    ensures 1 <= |r| <= 4
    ensures c < 0x80 <==> r == [c]
  {
    if c < 0x80 then [c]
    else if c < 0x800 then [0xC0 + c / 0x40, 0x80 + c % 0x40]
    else if c < 0x10000 then [0xE0 + c / 0x1000, 0x80 + c / 0x40 % 0x40, 0x80 + c % 0x40]
    else [0xF0 + c / 0x40000, 0x80 + c / 0x1000 % 0x40, 0x80 + c / 0x40 % 0x40, 0x80 + c % 0x40]
  }

  function Utf8(cps: seq<CodePoint>): (r: seq<Byte>) {
    if cps == [] then [] else Utf8Of(cps[0]) + Utf8(cps[1..])
  }

  /** Length of the sequence a lead byte announces; 0 for a byte that leads none. */
  function LeadLength(b: Byte): (n: nat)
    ensures n <= 4
  {
    if b < 0x80 then 1
    else if 0xC2 <= b < 0xE0 then 2
    else if 0xE0 <= b < 0xF0 then 3
    else if 0xF0 <= b < 0xF5 then 4
    else 0
  }

  /** The second byte's range excludes overlong forms, surrogates and values past U+10FFFF. */
  predicate GoodSecond(lead: Byte, b: Byte) {
    (if lead == 0xE0 then 0xA0 else if lead == 0xF0 then 0x90 else 0x80) <= b
    <= (if lead == 0xED then 0x9F else if lead == 0xF4 then 0x8F else 0xBF)
  }

  predicate Continues(b: Byte) { 0x80 <= b < 0xC0 }

  /** Length of the longest prefix of `s` that can still begin a well-formed sequence, at least 1. */
  function GoodPrefix(s: seq<Byte>): (k: nat)
    requires s != []
    ensures 1 <= k <= |s|
    ensures LeadLength(s[0]) >= 1 ==> k <= LeadLength(s[0])
  {
    var n := LeadLength(s[0]);
    if n <= 1 || |s| < 2 || !GoodSecond(s[0], s[1]) then 1
    else if n == 2 || |s| < 3 || !Continues(s[2]) then 2
    else if n == 3 || |s| < 4 || !Continues(s[3]) then 3
    else 4
  }

  /** `s` begins with a complete well-formed sequence. */
  predicate StartsWell(s: seq<Byte>)
    requires s != []
  {
    GoodPrefix(s) == LeadLength(s[0])
  }

  function FirstScalar(s: seq<Byte>): (c: CodePoint)
    requires s != [] && StartsWell(s)
    ensures IsScalar(c)
  {
    var n := LeadLength(s[0]);
    var b0: int := s[0];
    if n == 1 then b0
    else
      var b1: int := s[1];
      if n == 2 then (b0 - 0xC0) * 0x40 + (b1 - 0x80)
      else
        var b2: int := s[2];
        if n == 3 then (b0 - 0xE0) * 0x1000 + (b1 - 0x80) * 0x40 + (b2 - 0x80)
        else
          var b3: int := s[3];
          (b0 - 0xF0) * 0x40000 + (b1 - 0x80) * 0x1000 + (b2 - 0x80) * 0x40 + (b3 - 0x80)
  }

  /** Base-64 digits of a code point. */
  lemma Digits(c: CodePoint)
    ensures c == c / 0x40 * 0x40 + c % 0x40
    ensures c / 0x40 == c / 0x1000 * 0x40 + c / 0x40 % 0x40
    ensures c / 0x1000 == c / 0x40000 * 0x40 + c / 0x1000 % 0x40
  {
  }

  lemma Utf8OfShort(c: CodePoint, t: seq<Byte>)
    requires IsScalar(c) && c < 0x10000
    ensures var s := Utf8Of(c) + t; StartsWell(s) && GoodPrefix(s) == |Utf8Of(c)| && FirstScalar(s) == c
  {
    var u := Utf8Of(c);
    var s := u + t;
    Digits(c);
    assert s[0] == u[0];
    if c >= 0x80 {
      assert s[1] == u[1];
      if c >= 0x800 {
        assert s[2] == u[2];
        assert c / 0x1000 <= 0xF;
        assert LeadLength(s[0]) == 3;
        assert GoodSecond(s[0], s[1]);
        assert Continues(s[2]);
      }
    }
  }

  lemma Utf8OfLong(c: CodePoint, t: seq<Byte>)
    requires c >= 0x10000
    ensures var s := Utf8Of(c) + t; StartsWell(s) && GoodPrefix(s) == |Utf8Of(c)| && FirstScalar(s) == c
  {
    var u := Utf8Of(c);
    var s := u + t;
    Digits(c);
    assert s[0] == u[0] && s[1] == u[1] && s[2] == u[2] && s[3] == u[3];
    assert c / 0x40000 <= 4;
    assert LeadLength(s[0]) == 4;
    assert GoodSecond(s[0], s[1]);
    assert Continues(s[2]) && Continues(s[3]);
  }

  /** The UTF-8 form of a scalar starts well, whatever follows, and decodes to that scalar. */
  lemma Utf8OfStartsWell(c: CodePoint, t: seq<Byte>)
    requires IsScalar(c)
    ensures var s := Utf8Of(c) + t; StartsWell(s) && GoodPrefix(s) == |Utf8Of(c)| && FirstScalar(s) == c
  {
    if c < 0x10000 {
      Utf8OfShort(c, t);
    } else {
      Utf8OfLong(c, t);
    }
  }

  const REPLACEMENT: CodePoint := 0xFFFD

  /**
   * The error-tolerant decoder of the WHATWG Encoding Standard, section 8.1.1: an ill-formed
   * prefix becomes one replacement character and decoding goes on after it.
   */
  function Utf8Lossy(s: seq<Byte>): (cps: seq<CodePoint>)
    ensures AllScalars(cps)
  {
    if s == [] then []
    else [if StartsWell(s) then FirstScalar(s) else REPLACEMENT] + Utf8Lossy(s[GoodPrefix(s)..])
  }

  lemma {:induction false} Utf8RoundTrip(cps: seq<CodePoint>)
    requires AllScalars(cps)
    ensures Utf8Lossy(Utf8(cps)) == cps
  {
    if cps != [] {
      Utf8OfStartsWell(cps[0], Utf8(cps[1..]));
      Utf8RoundTrip(cps[1..]);
      assert Utf8(cps)[|Utf8Of(cps[0])|..] == Utf8(cps[1..]);
      assert [cps[0]] + cps[1..] == cps;
    }
  }

  lemma {:induction false} Utf8OfAscii(s: seq<CodePoint>)
    requires Ascii(s)
    ensures Utf8(s) == s
  {
    if s != [] {
      Utf8OfAscii(s[1..]);
      assert [s[0]] + s[1..] == s;
    }
  }

  lemma {:induction false} Utf8Concat(a: seq<CodePoint>, b: seq<CodePoint>)
    ensures Utf8(a + b) == Utf8(a) + Utf8(b)
  {
    if a == [] {
      assert a + b == b;
    } else {
      Utf8Concat(a[1..], b);
      HeadOfConcat(a, b);
      Regroup(Utf8Of(a[0]), Utf8(a[1..]), Utf8(b));
    }
  }
}
