/**
 * `encodeURIComponent` and `decodeURIComponent` (section 19.2.6 of ECMA-262, over the
 * percent-encoding of section 2.1 of RFC 3986). `None` stands for a thrown URIError.
 */
module Uri {
  import opened Text
  import opened Unicode

  predicate IsAlnum(u: int) {
    '0' as int <= u <= '9' as int || 'A' as int <= u <= 'Z' as int || 'a' as int <= u <= 'z' as int
  }

  const PERCENT: Unit := '%' as int

  /* ------------------------------------------------------------- hex octets */

  function HexDigit(n: int): (u: Unit)
    requires 0 <= n < 16
    ensures IsAlnum(u)
  {
    if n < 10 then 48 + n else 55 + n
  }

  function HexValue(u: int): (v: Option<int>)
    ensures v.Some? ==> 0 <= v.value < 16
  {
    if 48 <= u <= 57 then Some(u - 48)
    else if 65 <= u <= 70 then Some(u - 55)
    else if 97 <= u <= 102 then Some(u - 87)
    else None
  }

  /** `%XX` with upper-case digits. */
  function Octet(b: Byte): (s: Str)
    ensures |s| == 3 && s[0] == PERCENT && IsAlnum(s[1]) && IsAlnum(s[2])
    ensures Ascii(s)
  {
    [PERCENT, HexDigit(b / 16), HexDigit(b % 16)]
  }

  function Octets(bs: seq<Byte>): (s: Str)
    ensures |s| == 3 * |bs|
    ensures Ascii(s)
    ensures forall u :: u in s ==> IsAlnum(u) || u == PERCENT
  {
    if bs == [] then [] else Octet(bs[0]) + Octets(bs[1..])
  }

  /** The byte of a `%XX` triple at the head of `s`, in either case. */
  function ReadOctet(s: seq<int>): (b: Option<Byte>)
    ensures b.Some? ==> |s| >= 3 && s[0] == PERCENT
  {
    if |s| < 3 || s[0] != PERCENT then None
    else
      match (HexValue(s[1]), HexValue(s[2]))
      case (Some(h), Some(l)) => Some(16 * h + l)
      case _ => None
  }

  lemma ReadWrittenOctet(b: Byte, t: seq<int>)
    ensures ReadOctet(Octet(b) + t) == Some(b)
  {
    var s := Octet(b) + t;
    assert s[0] == Octet(b)[0] && s[1] == Octet(b)[1] && s[2] == Octet(b)[2];
  }

  /** The bytes of `n` consecutive triples. */
  function ReadOctets(s: Str, n: nat): (bs: Option<seq<Byte>>)
    ensures bs.Some? ==> |bs.value| == n && 3 * n <= |s|
  {
    if n == 0 then Some([])
    else
      match ReadOctet(s)
      case None => None
      case Some(b) =>
        match ReadOctets(s[3..], n - 1)
        case None => None
        case Some(rest) => Some([b] + rest)
  }

  lemma {:induction false} ReadWrittenOctets(bs: seq<Byte>, t: Str)
    ensures ReadOctets(Octets(bs) + t, |bs|) == Some(bs)
  {
    if bs != [] {
      var rest := Octets(bs[1..]) + t;
      ReadWrittenOctets(bs[1..], t);
      ReadWrittenOctet(bs[0], rest);
      assert Octets(bs) + t == Octet(bs[0]) + rest;
      assert (Octet(bs[0]) + rest)[3..] == rest;
      assert [bs[0]] + bs[1..] == bs;
    }
  }

  /* ---------------------------------------------------- encodeURIComponent */

  /** Letters, digits and `- _ . ! ~ * ' ( )`. */
  predicate IsUnreserved(c: int) {
    IsAlnum(c) || c in {45, 95, 46, 33, 126, 42, 39, 40, 41}
  }

  function EncodePoint(c: CodePoint): (s: Str)
    ensures s != [] && Ascii(s)
    ensures forall u :: u in s ==> IsUnreserved(u) || u == PERCENT
  {
    if IsUnreserved(c) then [c] else Octets(Utf8Of(c))
  }

  function EncodePoints(cps: seq<CodePoint>): (s: Str)
    ensures Ascii(s)
    ensures forall u :: u in s ==> IsUnreserved(u) || u == PERCENT
    ensures s == [] ==> cps == []
  {
    if cps == [] then [] else EncodePoint(cps[0]) + EncodePoints(cps[1..])
  }

  function EncodeURIComponent(s: Str): (r: Option<Str>)
    ensures r.Some? <==> WellFormed(s)
  {
    if WellFormed(s) then Some(EncodePoints(CodePoints(s))) else None
  }

  /** Letters, digits and nine marks are sent as they are; of any other character each byte is escaped in upper case. */
  lemma EscapeLaw(c: CodePoint)
    ensures if 48 <= c <= 57 || 65 <= c <= 90 || 97 <= c <= 122 ||
               c == 45 || c == 95 || c == 46 || c == 33 || c == 126 || c == 42 || c == 39 || c == 40 || c == 41
            then EncodePoint(c) == [c]
            else EncodePoint(c) == Octets(Utf8Of(c))
  {
  }

  /** An escape is a percent sign and two hexadecimal digits, written in upper case and read in either. */
  lemma HexLaw(u: int, b: Byte)
    ensures HexValue(u) ==
            if 48 <= u <= 57 then Some(u - 48)
            else if 65 <= u <= 70 then Some(10 + (u - 65))
            else if 97 <= u <= 102 then Some(10 + (u - 97))
            else None
    ensures var digit := (n: int) => if n < 10 then 48 + n else 65 + (n - 10);
      Octet(b) == [37, digit(b / 16), digit(b % 16)]
  {
  }

  /* ---------------------------------------------------- decodeURIComponent */

  /** One escaped scalar at the head of `s`: the scalar and the number of units read. */
  function ReadEscaped(s: Str): (r: Option<(CodePoint, nat)>)
    requires s != [] && s[0] == PERCENT
    ensures r.Some? ==> IsScalar(r.value.0) && 3 <= r.value.1 <= |s|
  {
    match ReadOctet(s)
    case None => None
    case Some(lead) =>
      var n := LeadLength(lead);
      if n == 0 then None
      else
        match ReadOctets(s, n)
        case None => None
        case Some(bs) => if StartsWell(bs) && GoodPrefix(bs) == n then Some((FirstScalar(bs), 3 * n)) else None
  }

  function DecodeURIComponent(s: Str): (r: Option<Str>)
    decreases |s|
  {
    if s == [] then Some([])
    else if s[0] != PERCENT then
      match DecodeURIComponent(s[1..])
      case None => None
      case Some(rest) => Some([s[0]] + rest)
    else
      match ReadEscaped(s)
      case None => None
      case Some((c, used)) =>
        match DecodeURIComponent(s[used..])
        case None => None
        case Some(rest) => Some(UnitsOf(c) + rest)
  }

  /** Text without a percent sign decodes to itself. */
  lemma {:induction false} DecodePlain(s: Str)
    requires PERCENT !in s
    ensures DecodeURIComponent(s) == Some(s)
  {
    if s != [] {
      assert s[0] != PERCENT;
      DecodePlain(s[1..]);
      assert [s[0]] + s[1..] == s;
    }
  }

  lemma ReadWrittenScalar(c: CodePoint, t: Str)
    requires IsScalar(c)
    ensures var s := Octets(Utf8Of(c)) + t;
            |s| > 0 && s[0] == PERCENT && ReadEscaped(s) == Some((c, 3 * |Utf8Of(c)|))
  {
    var bs := Utf8Of(c);
    var s := Octets(bs) + t;
    ReadWrittenOctets(bs, t);
    Utf8OfStartsWell(c, []);
    assert bs + [] == bs;
    assert s == Octet(bs[0]) + (Octets(bs[1..]) + t);
    ReadWrittenOctet(bs[0], Octets(bs[1..]) + t);
  }

  lemma {:induction false} DecodeStep(c: CodePoint, s: Str, text: Str)
    requires IsScalar(c)
    requires DecodeURIComponent(s) == Some(text)
    ensures DecodeURIComponent(EncodePoint(c) + s) == Some(UnitsOf(c) + text)
  {
    if IsUnreserved(c) {
      assert ([c] + s)[1..] == s;
    } else {
      ReadWrittenScalar(c, s);
      var e := Octets(Utf8Of(c));
      assert (e + s)[|e|..] == s;
    }
  }

  lemma {:induction false} DecodeEncodedPoints(cps: seq<CodePoint>)
    requires AllScalars(cps)
    ensures DecodeURIComponent(EncodePoints(cps)) == Some(Units(cps))
  {
    if cps != [] {
      DecodeEncodedPoints(cps[1..]);
      DecodeStep(cps[0], EncodePoints(cps[1..]), Units(cps[1..]));
    }
  }

  /** `decodeURIComponent(encodeURIComponent(s)) === s` for every string it encodes. */
  lemma DecodeEncoded(s: Str)
    requires WellFormed(s)
    ensures DecodeURIComponent(EncodeURIComponent(s).value) == Some(s)
  {
    DecodeEncodedPoints(CodePoints(s));
    UnitsOfCodePoints(s);
  }
}
