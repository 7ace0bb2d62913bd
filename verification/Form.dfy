/**
 * `URLSearchParams` over a string: the application/x-www-form-urlencoded parser and serializer
 * (section 5 of the WHATWG URL Standard).
 */
module Form {
  import opened Text
  import opened Unicode
  import opened Uri

  const AMP: Unit := '&' as int
  const EQ: Unit := '=' as int
  const PLUS: Unit := '+' as int
  const SPACE: Unit := ' ' as int
  const QUERY: Unit := '?' as int

  datatype Pair = Pair(name: Str, value: Str)

  predicate WellFormedPairs(ps: seq<Pair>) {
    forall i :: 0 <= i < |ps| ==> WellFormed(ps[i].name) && WellFormed(ps[i].value)
  }

  /* ------------------------------------------------------------------ parser */

  /** Lone surrogates become U+FFFD before anything is read. */
  function ToScalars(cps: seq<CodePoint>): (r: seq<CodePoint>)
    ensures AllScalars(r)
  {
    if cps == [] then []
    else [if IsScalar(cps[0]) then cps[0] else REPLACEMENT] + ToScalars(cps[1..])
  }

  /** `+` is a space, a `%XX` triple is its byte, anything else is itself. */
  function FieldBytes(bs: seq<Byte>): (r: seq<Byte>)
    decreases |bs|
  {
    if bs == [] then []
    else
      match ReadOctet(bs)
      case Some(b) => [b] + FieldBytes(bs[3..])
      case None => [if bs[0] == PLUS then SPACE else bs[0]] + FieldBytes(bs[1..])
  }

  function DecodeField(bs: seq<Byte>): (s: Str) {
    Units(Utf8Lossy(FieldBytes(bs)))
  }

  function ParsePart(part: seq<Byte>): (p: Pair) {
    var k := IndexOf(part, EQ);
    Pair(DecodeField(part[..k]), DecodeField(if k < |part| then part[k + 1..] else []))
  }

  function ParseParts(parts: seq<seq<Byte>>): (ps: seq<Pair>) {
    if parts == [] then []
    else (if parts[0] == [] then [] else [ParsePart(parts[0])]) + ParseParts(parts[1..])
  }

  function ParseBytes(bs: seq<Byte>): (ps: seq<Pair>) {
    ParseParts(Split<Byte>(bs, AMP))
  }

  /** `new URLSearchParams(s)`: one leading question mark is dropped. */
  function Parse(s: Str): (ps: seq<Pair>) {
    var init := if s != [] && s[0] == QUERY then s[1..] else s;
    ParseBytes(Utf8(ToScalars(CodePoints(init))))
  }

  /** `params.get(name)`. */
  function Get(ps: seq<Pair>, name: Str): (v: Option<Str>)
    ensures v.None? <==> forall i :: 0 <= i < |ps| ==> ps[i].name != name
  {
    if ps == [] then None else if ps[0].name == name then Some(ps[0].value) else Get(ps[1..], name)
  }

  /** `params.delete(name)`. */
  function Delete(ps: seq<Pair>, name: Str): (r: seq<Pair>)
    ensures forall i :: 0 <= i < |r| ==> r[i].name != name
    ensures WellFormedPairs(ps) ==> WellFormedPairs(r)
  {
    if ps == [] then [] else (if ps[0].name == name then [] else [ps[0]]) + Delete(ps[1..], name)
  }

  lemma {:induction false} DeleteKeepsAbsent(ps: seq<Pair>, name: Str, other: Str)
    requires forall i :: 0 <= i < |ps| ==> ps[i].name != other
    ensures forall i :: 0 <= i < |Delete(ps, name)| ==> Delete(ps, name)[i].name != other
  {
    if ps != [] {
      DeleteKeepsAbsent(ps[1..], name, other);
    }
  }

  lemma ParsedPartIsWellFormed(part: seq<Byte>)
    ensures WellFormed(ParsePart(part).name) && WellFormed(ParsePart(part).value)
  {
    var k := IndexOf(part, EQ);
    CodePointsOfScalars(Utf8Lossy(FieldBytes(part[..k])));
    CodePointsOfScalars(Utf8Lossy(FieldBytes(if k < |part| then part[k + 1..] else [])));
  }

  lemma {:induction false} ParsedIsWellFormed(parts: seq<seq<Byte>>)
    ensures WellFormedPairs(ParseParts(parts))
  {
    if parts != [] {
      ParsedPartIsWellFormed(parts[0]);
      ParsedIsWellFormed(parts[1..]);
    }
  }

  /* -------------------------------------------------------------- serializer */

  predicate KeptByForm(b: int) {
    IsAlnum(b) || b in {42, 45, 46, 95}
  }

  function SerializeByte(b: Byte): (s: Str)
    ensures s != [] && Ascii(s)
    ensures forall u :: u in s ==> KeptByForm(u) || u == PERCENT || u == PLUS
  {
    if b == SPACE then [PLUS] else if KeptByForm(b) then [b] else Octet(b)
  }

  /** A form writes letters, digits and four marks as they are, a space as a plus, and escapes every other byte. */
  lemma FormLaw(b: Byte)
    ensures SerializeByte(b) ==
            if b == 32 then [43]
            else if 48 <= b <= 57 || 65 <= b <= 90 || 97 <= b <= 122 || b in {42, 45, 46, 95} then [b]
            else Octet(b)
  {
  }

  function SerializeBytes(bs: seq<Byte>): (s: Str)
    ensures Ascii(s)
    ensures forall u :: u in s ==> KeptByForm(u) || u == PERCENT || u == PLUS
  {
    if bs == [] then [] else SerializeByte(bs[0]) + SerializeBytes(bs[1..])
  }

  function SerializeField(s: Str): (r: Str) {
    SerializeBytes(Utf8(ToScalars(CodePoints(s))))
  }

  function SerializePair(p: Pair): (s: Str) {
    SerializeField(p.name) + [EQ] + SerializeField(p.value)
  }

  function SerializePairs(ps: seq<Pair>): (parts: seq<Str>)
    ensures |parts| == |ps|
  {
    if ps == [] then [] else [SerializePair(ps[0])] + SerializePairs(ps[1..])
  }

  /** `params.toString()`. */
  function Serialize(ps: seq<Pair>): (s: Str) {
    Join(SerializePairs(ps), AMP)
  }

  /* -------------------------------------------------------------- round trip */

  lemma {:induction false} ToScalarsId(cps: seq<CodePoint>)
    requires AllScalars(cps)
    ensures ToScalars(cps) == cps
  {
    if cps != [] {
      ToScalarsId(cps[1..]);
      assert [cps[0]] + cps[1..] == cps;
    }
  }

  /** On ASCII text that does not start with a question mark the parser works on the text itself. */
  lemma ParseAscii(s: Str)
    requires Ascii(s)
    requires s == [] || s[0] != QUERY
    ensures Parse(s) == ParseBytes(s)
  {
    CodePointsOfAscii(s);
    ToScalarsId(s);
    Utf8OfAscii(s);
  }

  lemma {:induction false} FieldStep(b: Byte, t: seq<Byte>)
    ensures FieldBytes(SerializeByte(b) + t) == [b] + FieldBytes(t)
  {
    if b == SPACE || KeptByForm(b) {
      var u := SerializeByte(b)[0];
      assert ([u] + t)[1..] == t;
    } else {
      ReadWrittenOctet(b, t);
      assert (Octet(b) + t)[3..] == t;
    }
  }

  lemma {:induction false} FieldOfSerialized(bs: seq<Byte>)
    ensures FieldBytes(SerializeBytes(bs)) == bs
  {
    if bs != [] {
      FieldOfSerialized(bs[1..]);
      FieldStep(bs[0], SerializeBytes(bs[1..]));
      assert [bs[0]] + bs[1..] == bs;
    }
  }

  lemma FieldRoundTrip(s: Str)
    requires WellFormed(s)
    ensures DecodeField(SerializeField(s)) == s
  {
    ToScalarsId(CodePoints(s));
    FieldOfSerialized(Utf8(CodePoints(s)));
    Utf8RoundTrip(CodePoints(s));
    UnitsOfCodePoints(s);
  }

  lemma ParsePartOf(n: Str, v: Str)
    requires Ascii(n) && Ascii(v) && EQ !in n
    ensures ParsePart(n + [EQ] + v) == Pair(DecodeField(n), DecodeField(v))
  {
    var part: seq<Byte> := n + [EQ] + v;
    IndexOfFirst<Byte>(n, v, EQ);
    assert part[..|n|] == n && part[|n| + 1..] == v;
  }

  /** What the parser needs of a part: plain text, no separator, no leading question mark. */
  predicate CleanPart(s: Str) {
    Ascii(s) && AMP !in s && s != [] && s[0] != QUERY
  }

  lemma PairIsClean(p: Pair)
    ensures CleanPart(SerializePair(p))
  {
    var n, v := SerializeField(p.name), SerializeField(p.value);
    assert n != [] ==> (n + [EQ] + v)[0] == n[0] && n[0] in n;
  }

  lemma PairRoundTrip(p: Pair)
    requires WellFormed(p.name) && WellFormed(p.value)
    ensures Ascii(SerializePair(p)) && ParsePart(SerializePair(p)) == p
  {
    PairIsClean(p);
    FieldRoundTrip(p.name);
    FieldRoundTrip(p.value);
    ParsePartOf(SerializeField(p.name), SerializeField(p.value));
  }

  lemma {:induction false} PairsAreClean(ps: seq<Pair>)
    ensures forall i :: 0 <= i < |ps| ==> CleanPart(SerializePairs(ps)[i])
  {
    if ps != [] {
      PairIsClean(ps[0]);
      PairsAreClean(ps[1..]);
    }
  }

  predicate AllAscii(parts: seq<Str>) {
    forall i :: 0 <= i < |parts| ==> Ascii(parts[i])
  }

  lemma {:induction false} PairsRoundTrip(ps: seq<Pair>)
    requires WellFormedPairs(ps)
    ensures AllAscii(SerializePairs(ps))
    ensures ParseParts(SerializePairs(ps)) == ps
  {
    if ps != [] {
      PairsRoundTrip(ps[1..]);
      PairsStep(ps[0], SerializePairs(ps[1..]), ps[1..]);
      assert [ps[0]] + ps[1..] == ps;
    }
  }

  lemma {:induction false} PairsStep(p: Pair, parts: seq<Str>, ps: seq<Pair>)
    requires WellFormed(p.name) && WellFormed(p.value)
    requires AllAscii(parts) && ParseParts(parts) == ps
    ensures AllAscii([SerializePair(p)] + parts)
    ensures ParseParts([SerializePair(p)] + parts) == [p] + ps
  {
    PairIsClean(p);
    PairRoundTrip(p);
    assert ([SerializePair(p)] + parts)[1..] == parts;
  }

  lemma {:induction false} JoinIsClean(parts: seq<Str>)
    requires parts != []
    requires forall i :: 0 <= i < |parts| ==> CleanPart(parts[i])
    ensures var s := Join(parts, AMP); Ascii(s) && s != [] && s[0] != QUERY
  {
    if |parts| > 1 {
      JoinIsClean(parts[1..]);
    }
  }

  lemma {:induction false} JoinedBytes(parts: seq<Str>)
    requires AllAscii(parts)
    ensures Join<Unit>(parts, AMP) == Join<Byte>(parts, AMP)
  {
    if |parts| > 1 {
      JoinedBytes(parts[1..]);
    }
  }

  /** Parsing what was serialized gives every pair back, in order. */
  lemma RoundTrip(ps: seq<Pair>)
    requires WellFormedPairs(ps)
    ensures Parse(Serialize(ps)) == ps
  {
    if ps == [] {
      ParseAscii([]);
      SplitWhole<Byte>([], AMP);
      assert ParseParts([[]]) == [];
    } else {
      PairsAreClean(ps);
      PairsRoundTrip(ps);
      JoinIsClean(SerializePairs(ps));
      ParseAscii(Serialize(ps));
      JoinedBytes(SerializePairs(ps));
      SplitJoin<Byte>(SerializePairs(ps), AMP);
    }
  }

  /* ------------------------------------- fields written by encodeURIComponent */

  lemma {:induction false} EncodedFieldStep(c: CodePoint, t: seq<Byte>)
    ensures FieldBytes(EncodePoint(c) + t) == Utf8Of(c) + FieldBytes(t)
  {
    if IsUnreserved(c) {
      assert ([c] + t)[1..] == t;
    } else {
      OctetsField(Utf8Of(c), t);
    }
  }

  lemma {:induction false} OctetsField(bs: seq<Byte>, t: seq<Byte>)
    ensures FieldBytes(Octets(bs) + t) == bs + FieldBytes(t)
  {
    if bs == [] {
      assert Octets(bs) + t == t;
    } else {
      OctetsField(bs[1..], t);
      OctetsFieldStep(bs[0], bs[1..], Octets(bs[1..]), t);
      assert [bs[0]] + bs[1..] == bs;
    }
  }

  lemma {:induction false} OctetsFieldStep(b: Byte, bs: seq<Byte>, s: seq<Byte>, t: seq<Byte>)
    requires FieldBytes(s + t) == bs + FieldBytes(t)
    ensures FieldBytes(Octet(b) + s + t) == [b] + bs + FieldBytes(t)
  {
    ReadWrittenOctet(b, s + t);
    assert Octet(b) + s + t == Octet(b) + (s + t);
    assert (Octet(b) + (s + t))[3..] == s + t;
  }

  lemma {:induction false} EncodedFieldBytes(cps: seq<CodePoint>)
    ensures FieldBytes(EncodePoints(cps)) == Utf8(cps)
  {
    if cps != [] {
      EncodedFieldBytes(cps[1..]);
      EncodedFieldStep(cps[0], EncodePoints(cps[1..]));
    }
  }

  /** Text of unreserved characters stands for itself in front of any field. */
  lemma {:induction false} PlainFieldBytes(s: Str, t: seq<Byte>)
    requires forall i :: 0 <= i < |s| ==> s[i] < 0x80 && s[i] != PLUS && s[i] != PERCENT
    ensures FieldBytes(s + t) == s + FieldBytes(t)
  {
    if s == [] {
      assert s + t == t;
    } else {
      PlainFieldBytes(s[1..], t);
      assert (s + t)[1..] == s[1..] + t;
      assert [s[0]] + (s[1..] + FieldBytes(t)) == s + FieldBytes(t);
    }
  }
}
