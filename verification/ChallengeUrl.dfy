/** The `#rival=` link (src/game/Challenge.ts). */
module ChallengeUrl {
  import opened Text
  import opened Unicode
  import opened Uri
  import opened Challenge
  import Form

  /** `${n}` for an integer. */
  function IntegerText(n: int): (s: Str) {
    if n < 0 then [MINUS] + Decimal(-n) else Decimal(n)
  }

  /** The link; `None` where `encodeURIComponent` throws. `base` is the page address. */
  function BuildChallengeUrl(base: Str, seed: Str, distance: real, name: Str, mode: Option<Str>): (r: Option<Str>) {
    match EncodeURIComponent(name)
    case None => None
    case Some(encoded) =>
      var rival := RIVAL + [Form.EQ] + Join([seed, IntegerText(distance.Floor), encoded], DOT);
      if mode.Some? && mode.value != [] then
        match EncodeURIComponent(mode.value)
        case None => None
        case Some(m) => Some(base + [HASH] + rival + [Form.AMP] + MODE + [Form.EQ] + m)
      else Some(base + [HASH] + rival)
  }

  /** `location.hash` of an address. */
  function HashOf(url: Str): (h: Str) {
    var k := IndexOf(url, HASH);
    if |url| - k <= 1 then [] else url[k..]
  }

  /** An address without a number sign, or with nothing behind it, has no hash; else it is all from the first on. */
  lemma HashLaw(base: Str, rest: Str)
    requires HASH !in base
    ensures HashOf(base) == []
    ensures HashOf(base + [HASH] + rest) == if rest == [] then [] else [35] + rest
  {
    IndexOfFirst(base, rest, HASH);
    var url := base + [HASH] + rest;
    assert url[|base|..] == [HASH] + rest;
    NoHash(base);
  }

  lemma {:induction false} NoHash(s: Str)
    requires HASH !in s
    ensures IndexOf(s, HASH) == |s|
  {
    var k := IndexOf(s, HASH);
    if k < |s| {
      assert false;
    }
  }

  function DropHash(hash: Str): (s: Str) {
    if hash != [] && hash[0] == HASH then hash[1..] else hash
  }

  function Params(hash: Str): (ps: seq<Form.Pair>) {
    Form.Parse(DropHash(hash))
  }

  /** The challenge a hash carries. The value is decoded once as a form field and once more here. */
  function ReadHash(js: Js, hash: Str): (r: Option<Challenge>) {
    match Form.Get(Params(hash), RIVAL)
    case None => None
    case Some(raw) => ReadRival(js, raw, Form.Get(Params(hash), MODE))
  }

  function ReadRival(js: Js, raw: Str, mode: Option<Str>): (r: Option<Challenge>) {
    var parts := Split(raw, DOT);
    if |parts| < 2 then None
    else
      match DecodeURIComponent(Join(parts[2..], DOT))
      case None => None
      case Some(name) => ParseChallengeParts(js, parts[0], parts[1], name, mode)
  }

  /** What is left in the address bar once the challenge has been taken out. */
  function ConsumedHash(hash: Str): (h: Str) {
    var rest := Form.Serialize(Form.Delete(Form.Delete(Params(hash), RIVAL), MODE));
    if rest == [] then [] else [HASH] + rest
  }

  /** The page: its `location.hash` and the challenge taken this session. */
  class Reader {
    const js: Js
    var consumed: Option<Challenge>
    var hash: Str

    constructor (js: Js, hash: Str)
      ensures this.js == js && this.hash == hash && consumed == None
    {
      this.js := js;
      this.hash := hash;
      consumed := None;
    }

    /** The first challenge found is kept for the session and removed from the address. */
    method Read() returns (r: Option<Challenge>)
      modifies this
      ensures old(consumed).Some? ==> r == old(consumed) && consumed == old(consumed) && hash == old(hash)
      ensures old(consumed).None? ==> r == ReadHash(js, old(hash)) && consumed == r
      ensures old(consumed).None? ==> hash == if r.Some? then ConsumedHash(old(hash)) else old(hash)
    {
      if consumed.Some? {
        return consumed;
      }
      var ps := Params(hash);
      var raw := Form.Get(ps, RIVAL);
      if raw.None? || raw.value == [] {
        EmptyRivalIsNothing(js, None);
        EmptyRivalIsNothing(js, Form.Get(ps, MODE));
        return None;
      }
      r := ReadRival(js, raw.value, Form.Get(ps, MODE));
      if r.Some? {
        ps := Form.Delete(Form.Delete(ps, RIVAL), MODE);
        var rest := Form.Serialize(ps);
        hash := if rest == [] then [] else [HASH] + rest;
        consumed := r;
      }
    }
  }

  lemma EmptyRivalIsNothing(js: Js, mode: Option<Str>)
    ensures ReadRival(js, [], mode) == None
  {
  }

  /* -------------------------------------------------- a refresh reads nothing */

  lemma ParamsAreWellFormed(hash: Str)
    ensures Form.WellFormedPairs(Params(hash))
  {
    var s := DropHash(hash);
    var init := if s != [] && s[0] == Form.QUERY then s[1..] else s;
    Form.ParsedIsWellFormed(Split<Byte>(Utf8(Form.ToScalars(CodePoints(init))), Form.AMP));
  }

  lemma HashOfPairs(ps: seq<Form.Pair>)
    requires Form.WellFormedPairs(ps)
    ensures Params(if Form.Serialize(ps) == [] then [] else [HASH] + Form.Serialize(ps)) == ps
  {
    Form.RoundTrip(ps);
    var rest := Form.Serialize(ps);
    assert ([HASH] + rest)[1..] == rest;
  }

  /** Once read, the address no longer carries a challenge: a refresh does not start it again. */
  lemma RefreshReadsNothing(js: Js, hash: Str)
    ensures Params(ConsumedHash(hash)) == Form.Delete(Form.Delete(Params(hash), RIVAL), MODE)
    ensures Form.Get(Params(ConsumedHash(hash)), RIVAL) == None
    ensures ReadHash(js, ConsumedHash(hash)) == None
  {
    ParamsAreWellFormed(hash);
    var once := Form.Delete(Params(hash), RIVAL);
    HashOfPairs(Form.Delete(once, MODE));
    Form.DeleteKeepsAbsent(once, MODE, RIVAL);
  }

  /* ------------------------------------------------------------- round trip */

  /** What a parameter name must avoid to stand for itself. */
  predicate KeyText(s: Str) {
    s != [] && Ascii(s) && forall i :: 0 <= i < |s| ==> IsAlnum(s[i])
  }

  lemma KeysArePlain()
    ensures KeyText(RIVAL) && KeyText(MODE)
  {
  }

  lemma KeyAvoids(key: Str)
    requires KeyText(key)
    ensures Form.EQ !in key && Form.PLUS !in key && PERCENT !in key && Form.AMP !in key && Form.QUERY !in key
  {
  }

  /** A part `key=text` where `text` is plain ASCII followed by an encoded name. */
  lemma {:induction false} EncodedPart(key: Str, plain: Str, name: Str)
    requires KeyText(key)
    requires Ascii(plain) && Form.PLUS !in plain && PERCENT !in plain && WellFormed(name)
    ensures Form.ParsePart(key + [Form.EQ] + (plain + EncodePoints(CodePoints(name)))) == Form.Pair(key, plain + name)
  {
    KeyAvoids(key);
    FieldOfPlain(key);
    FieldOfEncoded(plain, name);
    Form.ParsePartOf(key, plain + EncodePoints(CodePoints(name)));
  }

  lemma FieldOfPlain(s: Str)
    requires Ascii(s) && Form.PLUS !in s && PERCENT !in s
    ensures Form.DecodeField(s) == s
  {
    forall i | 0 <= i < |s| ensures s[i] < 0x80 && s[i] != Form.PLUS && s[i] != PERCENT {
      assert s[i] in s;
    }
    Form.PlainFieldBytes(s, []);
    assert s + [] == s;
    CodePointsOfAscii(s);
    Utf8OfAscii(s);
    Utf8RoundTrip(s);
    UnitsOfCodePoints(s);
  }

  lemma {:induction false} FieldOfEncoded(plain: Str, name: Str)
    requires Ascii(plain) && Form.PLUS !in plain && PERCENT !in plain && WellFormed(name)
    ensures Form.DecodeField(plain + EncodePoints(CodePoints(name))) == plain + name
  {
    var cps := CodePoints(name);
    forall i | 0 <= i < |plain| ensures plain[i] < 0x80 && plain[i] != Form.PLUS && plain[i] != PERCENT {
      assert plain[i] in plain;
    }
    Form.PlainFieldBytes(plain, EncodePoints(cps));
    Form.EncodedFieldBytes(cps);
    Utf8OfAscii(plain);
    Utf8Concat(plain, cps);
    Utf8RoundTrip(plain + cps);
    UnitsConcat(plain, cps);
    UnitsOfCodePoints(name);
    CodePointsOfAscii(plain);
    UnitsOfCodePoints(plain);
  }

  /** The fragment after `#`, as a list of form parts. */
  function LinkParts(seed: Str, distance: int, name: Str, mode: Option<Str>): (parts: seq<Str>) {
    [RIVAL + [Form.EQ] + (LinkPrefix(seed, distance) + EncodePoints(CodePoints(name)))]
    + if mode.Some? && mode.value != [] then [MODE + [Form.EQ] + ([] + EncodePoints(CodePoints(mode.value)))] else []
  }

  function LinkPrefix(seed: Str, distance: int): (s: Str) {
    seed + [DOT] + IntegerText(distance) + [DOT]
  }

  lemma {:induction false} PartIsClean(key: Str, plain: Str, cps: seq<CodePoint>)
    requires KeyText(key) && Ascii(plain) && Form.AMP !in plain
    ensures Form.CleanPart(key + [Form.EQ] + (plain + EncodePoints(cps)))
  {
    KeyAvoids(key);
    EncodedHasNoAmp(cps);
    CleanConcat(key, plain + EncodePoints(cps));
  }

  lemma {:induction false} EncodedHasNoAmp(cps: seq<CodePoint>)
    ensures Form.AMP !in EncodePoints(cps)
  {
    assert forall u :: u in EncodePoints(cps) ==> IsUnreserved(u) || u == PERCENT;
  }

  lemma CleanConcat(key: Str, text: Str)
    requires key != [] && Ascii(key) && Form.AMP !in key && Form.QUERY !in key && Ascii(text) && Form.AMP !in text
    ensures Form.CleanPart(key + [Form.EQ] + text)
  {
    assert (key + [Form.EQ] + text)[0] == key[0];
  }

  /**
   * A unit that a form field shows as it is, that separates nothing in the link, and that an address
   * keeps: tabs and line ends are dropped from it.
   */
  predicate PlainUnit(u: Unit) {
    0x20 <= u < 0x80 && u != DOT && u != Form.AMP && u != Form.PLUS && u != PERCENT
  }

  predicate PlainSeed(seed: Str) {
    forall u :: u in seed ==> PlainUnit(u)
  }

  lemma IntegerIsPlain(n: int)
    ensures PlainSeed(IntegerText(n))
  {
    forall u | u in IntegerText(n) ensures PlainUnit(u) {
      assert u == MINUS || IsDigit(u);
    }
  }

  lemma PrefixIsPlain(seed: Str, distance: int)
    requires PlainSeed(seed)
    ensures Ascii(LinkPrefix(seed, distance))
    ensures forall u :: u in LinkPrefix(seed, distance) ==> PlainUnit(u) || u == DOT
  {
    IntegerIsPlain(distance);
    var p := LinkPrefix(seed, distance);
    forall u | u in p ensures PlainUnit(u) || u == DOT {
      assert u in seed || u in IntegerText(distance) || u == DOT;
    }
    forall i | 0 <= i < |p| ensures p[i] < 0x80 {
      assert p[i] in p;
    }
  }

  /** Parsing the joined parts gives the parsed parts. */
  lemma {:induction false} ParseJoined(parts: seq<Str>)
    requires parts != []
    requires forall i :: 0 <= i < |parts| ==> Form.CleanPart(parts[i])
    ensures Form.AllAscii(parts)
    ensures Form.Parse(Join(parts, Form.AMP)) == Form.ParseParts(parts)
  {
    Form.JoinIsClean(parts);
    Form.ParseAscii(Join(parts, Form.AMP));
    Form.JoinedBytes(parts);
    SplitJoin<Byte>(parts, Form.AMP);
  }

  /** The pairs a receiver parses out of a link. */
  lemma LinkPairs(seed: Str, distance: int, name: Str, mode: Option<Str>)
    requires PlainSeed(seed) && WellFormed(name) && (mode.Some? ==> WellFormed(mode.value))
    ensures Form.Parse(Join(LinkParts(seed, distance, name, mode), Form.AMP))
         == [Form.Pair(RIVAL, LinkPrefix(seed, distance) + name)]
            + if mode.Some? && mode.value != [] then [Form.Pair(MODE, mode.value)] else []
  {
    RivalPart(seed, distance, name);
    var rival := RIVAL + [Form.EQ] + (LinkPrefix(seed, distance) + EncodePoints(CodePoints(name)));
    if mode.Some? && mode.value != [] {
      ModePart(mode.value);
      var second := MODE + [Form.EQ] + ([] + EncodePoints(CodePoints(mode.value)));
      ParseTwo(rival, second);
      TwoLinkParts(seed, distance, name, mode, rival, second);
    } else {
      ParseOne(rival);
      assert LinkParts(seed, distance, name, mode) == [rival];
    }
  }

  lemma {:induction false} TwoLinkParts(seed: Str, distance: int, name: Str, mode: Option<Str>, rival: Str, second: Str)
    requires WellFormed(name) && mode.Some? && mode.value != [] && WellFormed(mode.value)
    requires rival == RIVAL + [Form.EQ] + (LinkPrefix(seed, distance) + EncodePoints(CodePoints(name)))
    requires second == MODE + [Form.EQ] + ([] + EncodePoints(CodePoints(mode.value)))
    ensures LinkParts(seed, distance, name, mode) == [rival, second]
  {
  }

  lemma {:induction false} RivalPart(seed: Str, distance: int, name: Str)
    requires PlainSeed(seed) && WellFormed(name)
    ensures var part := RIVAL + [Form.EQ] + (LinkPrefix(seed, distance) + EncodePoints(CodePoints(name)));
      Form.CleanPart(part) && Form.ParsePart(part) == Form.Pair(RIVAL, LinkPrefix(seed, distance) + name)
  {
    KeysArePlain();
    PrefixIsPlain(seed, distance);
    PartIsClean(RIVAL, LinkPrefix(seed, distance), CodePoints(name));
    EncodedPart(RIVAL, LinkPrefix(seed, distance), name);
  }

  lemma {:induction false} ModePart(mode: Str)
    requires WellFormed(mode)
    ensures var part := MODE + [Form.EQ] + ([] + EncodePoints(CodePoints(mode)));
      Form.CleanPart(part) && Form.ParsePart(part) == Form.Pair(MODE, mode)
  {
    KeysArePlain();
    PartIsClean(MODE, [], CodePoints(mode));
    EncodedPart(MODE, [], mode);
    assert [] + mode == mode;
  }

  lemma ParseOne(a: Str)
    requires Form.CleanPart(a)
    ensures Form.Parse(Join([a], Form.AMP)) == [Form.ParsePart(a)]
  {
    ParseJoined([a]);
  }

  lemma ParseTwo(a: Str, b: Str)
    requires Form.CleanPart(a) && Form.CleanPart(b)
    ensures Form.Parse(Join([a, b], Form.AMP)) == [Form.ParsePart(a), Form.ParsePart(b)]
  {
    ParseJoined([a, b]);
    assert [a, b][1..] == [b];
    ParseJoined([b]);
    assert [b][1..] == [];
    assert Form.ParseParts([b]) == [Form.ParsePart(b)];
  }

  lemma IntegerReadsBack(js: Js, n: int)
    ensures NumberOf(js, IntegerText(n)) == Some(n as real)
  {
    if n < 0 {
      NegativeReadsBack(js, -n);
    } else {
      NumeralReadsBack(js, n);
    }
  }

  /** Dots in the name survive although the dot is the separator; the name is decoded again. */
  lemma ReadRivalOf(js: Js, seed: Str, distance: int, name: Str, mode: Option<Str>)
    requires PlainSeed(seed)
    ensures ReadRival(js, LinkPrefix(seed, distance) + name, mode)
         == if Acceptable(seed, distance) then ReadBack(js, seed, distance, name, mode) else None
  {
    var n := IntegerText(distance);
    IntegerIsPlain(distance);
    SplitTwice(seed, n, name);
    assert LinkPrefix(seed, distance) + name == seed + [DOT] + (n + [DOT] + name);
    JoinSplit(name, DOT);
    IntegerReadsBack(js, distance);
  }

  /** A seed and a distance the reader takes. */
  predicate Acceptable(seed: Str, distance: int) {
    ValidSeed(seed) && 1 <= distance <= MAX_DISTANCE
  }

  lemma {:induction false} SplitTwice(a: Str, b: Str, c: Str)
    requires DOT !in a && DOT !in b
    ensures var parts := Split(a + [DOT] + (b + [DOT] + c), DOT);
      |parts| >= 2 && parts[0] == a && parts[1] == b && parts[2..] == Split(c, DOT)
  {
    SplitFirst(a, b + [DOT] + c, DOT);
    SplitFirst(b, c, DOT);
  }

  /** What a receiver makes of a link: the name goes through `decodeURIComponent` once more. */
  function ReadBack(js: Js, seed: Str, distance: int, name: Str, mode: Option<Str>): (r: Option<Challenge>) {
    match DecodeURIComponent(name)
    case None => None
    case Some(again) => Some(Challenge(seed, distance as real, CleanName(js, again), CleanMode(mode)))
  }

  /** A clean name holds no percent sign, so the second decoding leaves it alone. */
  lemma NameHasNoPercent(js: Js, name: Str)
    requires IsUnicode(js) && WellFormed(name) && CleanName(js, name) == name
    ensures PERCENT !in name
  {
    CleanNameUnits(js, name);
    if name != A_RIVAL {
      var cps := CodePoints(name);
      UnitsOfCodePoints(name);
      forall i | 0 <= i < |cps| ensures cps[i] != PERCENT {
        assert cps[i] == NamePoints(js, name)[i] && cps[i] in NamePoints(js, name);
      }
      UnitsAvoid(cps, PERCENT);
    }
  }

  lemma {:induction false} UnitsAvoid(cps: seq<CodePoint>, u: Unit)
    requires u < 0xD800
    requires forall i :: 0 <= i < |cps| ==> cps[i] != u
    ensures u !in Units(cps)
  {
    if cps != [] {
      UnitsAvoid(cps[1..], u);
    }
  }

  lemma HashOfLink(base: Str, fragment: Str)
    requires HASH !in base && fragment != []
    ensures DropHash(HashOf(base + [HASH] + fragment)) == fragment
  {
    var url := base + [HASH] + fragment;
    IndexOfFirst(base, fragment, HASH);
    assert url[|base|..] == [HASH] + fragment;
  }

  lemma LinkText(base: Str, seed: Str, distance: real, name: Str, mode: Option<Str>)
    requires WellFormed(name) && (mode.Some? ==> WellFormed(mode.value))
    ensures BuildChallengeUrl(base, seed, distance, name, mode)
         == Some(base + [HASH] + Join(LinkParts(seed, distance.Floor, name, mode), Form.AMP))
  {
    var encoded := EncodePoints(CodePoints(name));
    JoinThree(seed, IntegerText(distance.Floor), encoded);
    var rival := RIVAL + [Form.EQ] + (LinkPrefix(seed, distance.Floor) + encoded);
    if mode.Some? && mode.value != [] {
      var m := EncodePoints(CodePoints(mode.value));
      JoinTwo(rival, MODE + [Form.EQ] + ([] + m));
      RegroupLink(base + [HASH], rival, m);
      assert LinkParts(seed, distance.Floor, name, mode) == [rival, MODE + [Form.EQ] + ([] + m)];
    } else {
      assert LinkParts(seed, distance.Floor, name, mode) == [rival];
    }
  }

  lemma JoinThree(a: Str, b: Str, c: Str)
    ensures Join([a, b, c], DOT) == a + [DOT] + b + [DOT] + c
  {
    assert [a, b, c][1..] == [b, c];
    assert [b, c][1..] == [c];
    assert Join([b, c], DOT) == b + [DOT] + Join([c], DOT);
    assert a + [DOT] + (b + [DOT] + c) == a + [DOT] + b + [DOT] + c;
  }

  lemma JoinTwo(a: Str, b: Str)
    ensures Join([a, b], Form.AMP) == a + [Form.AMP] + b
  {
    assert [a, b][1..] == [b];
  }

  lemma RegroupLink(a: Str, b: Str, m: Str)
    ensures a + (b + [Form.AMP] + (MODE + [Form.EQ] + ([] + m))) == a + b + [Form.AMP] + MODE + [Form.EQ] + m
  {
    assert [] + m == m;
  }

  /** From here on JavaScript prints a number with an exponent. */
  const EXPONENTS: int := 1_000_000_000_000_000_000_000

  predicate PrintsDigits(distance: int) {
    -EXPONENTS < distance < EXPONENTS
  }

  /**
   * Whatever the name and mode, a link opened in a fresh session reads back as the second decoding of
   * the name allows if its seed and distance are acceptable, and as nothing otherwise.
   */
  lemma LinkReads(js: Js, base: Str, seed: Str, distance: real, name: Str, mode: Option<Str>)
    requires HASH !in base && PlainSeed(seed) && PrintsDigits(distance.Floor)
    ensures var url := BuildChallengeUrl(base, seed, distance, name, mode);
      url.Some? ==>
        ReadHash(js, HashOf(url.value)) ==
        if Acceptable(seed, distance.Floor) then ReadBack(js, seed, distance.Floor, name, mode) else None
  {
    if BuildChallengeUrl(base, seed, distance, name, mode).Some? {
      var sent := if mode == Some([]) then None else mode;
      LinkText(base, seed, distance, name, sent);
      LinkPairs(seed, distance.Floor, name, sent);
      var fragment := Join(LinkParts(seed, distance.Floor, name, sent), Form.AMP);
      HashOfLink(base, fragment);
      ReadRivalOf(js, seed, distance.Floor, name, sent);
      GetLinked(LinkPrefix(seed, distance.Floor) + name, sent);
    }
  }

  /** A built link can be read at all exactly when seed, distance and the decoding of the name allow it. */
  lemma {:induction false} LinkIsReadableExactly(
      js: Js, base: Str, seed: Str, distance: real, name: Str, mode: Option<Str>)
    requires HASH !in base && PlainSeed(seed) && PrintsDigits(distance.Floor)
    ensures var url := BuildChallengeUrl(base, seed, distance, name, mode);
      url.Some? ==>
        (ReadHash(js, HashOf(url.value)).Some? <==>
         ValidSeed(seed) && 1 <= distance.Floor <= MAX_DISTANCE && DecodeURIComponent(name).Some?)
  {
    LinkReads(js, base, seed, distance, name, mode);
  }

  lemma ValidSeedIsPlain(seed: Str)
    requires ValidSeed(seed)
    ensures PlainSeed(seed)
  {
    forall u | u in seed ensures PlainUnit(u) {
      assert SeedUnit(u);
    }
  }

  /** Whatever a link says, what is read has an acceptable seed and distance. */
  lemma ReadIsAcceptable(js: Js, hash: Str)
    ensures var r := ReadHash(js, hash);
      r.Some? ==> ValidSeed(r.value.seed) && 1.0 <= r.value.distance <= MAX_DISTANCE as real
  {
  }

  /** The values a link can carry unchanged. */
  predicate Sendable(js: Js, seed: Str, distance: int, name: Str, mode: Option<Str>) {
    && Acceptable(seed, distance)
    && WellFormed(name)
    && DecodeURIComponent(name).Some?
    && CleanName(js, DecodeURIComponent(name).value) == name
    && CleanMode(mode) == mode
  }

  /** For any seed, distance, name and mode: a link gives back those very values exactly when they are sendable. */
  lemma LinkGivesItsValuesExactly(js: Js, base: Str, seed: Str, distance: real, name: Str, mode: Option<Str>)
    requires HASH !in base
    ensures var url := BuildChallengeUrl(base, seed, distance, name, mode);
      (url.Some? &&
       ReadHash(js, HashOf(url.value)) == Some(Challenge(seed, distance.Floor as real, name, mode))) <==>
      Sendable(js, seed, distance.Floor, name, mode)
  {
    var url := BuildChallengeUrl(base, seed, distance, name, mode);
    if url.Some? {
      ReadIsAcceptable(js, HashOf(url.value));
    }
    if mode.Some? {
      ModeTextIsPlain(mode.value);
    }
    if Acceptable(seed, distance.Floor) {
      ValidSeedIsPlain(seed);
      LinkReads(js, base, seed, distance, name, mode);
    }
  }

  /** A race is flown on the day's seed, a colon and the course: no link to it can be read. */
  lemma RaceLinkIsUnreadable(
      js: Js, base: Str, day: Str, course: Str, distance: real, name: Str, mode: Option<Str>)
    requires HASH !in base && PlainSeed(day) && PlainSeed(course) && PrintsDigits(distance.Floor)
    ensures var url := BuildChallengeUrl(base, day + [COLON] + course, distance, name, mode);
      url.Some? ==> ReadHash(js, HashOf(url.value)) == None
  {
    var seed := day + [COLON] + course;
    assert seed[|day|] == COLON && !SeedUnit(seed[|day|]);
    LinkReads(js, base, seed, distance, name, mode);
  }

  const UNDERSCORE: Unit := '_' as int

  /** A mode is given back exactly when it is absent, or short and all small letters, digits and minus signs. */
  lemma ModeIsKeptExactly(mode: Option<Str>)
    ensures CleanMode(mode) == mode <==>
            mode.None? || (1 <= |mode.value| <= MODE_MAX && forall u :: u in mode.value ==> ModeUnit(u))
  {
    if mode.Some? && forall u :: u in mode.value ==> ModeUnit(u) {
      FilterAll(mode.value, ModeUnit);
    }
  }

  /** The id of every pvp mode has an underscore: the link may be read, but never with its own mode. */
  lemma PvpModeIsLost(js: Js, base: Str, seed: Str, distance: real, name: Str, mode: Str)
    requires HASH !in base && PlainSeed(seed) && PrintsDigits(distance.Floor) && UNDERSCORE in mode
    ensures var url := BuildChallengeUrl(base, seed, distance, name, Some(mode));
      url.Some? ==>
        var r := ReadHash(js, HashOf(url.value));
        r.Some? ==> r.value.mode == CleanMode(Some(mode)) != Some(mode)
  {
    LinkReads(js, base, seed, distance, name, Some(mode));
    ModeIsKeptExactly(Some(mode));
    assert !ModeUnit(UNDERSCORE);
  }

  /** A link built from clean values gives those very values. */
  lemma LinkRoundTrip(js: Js, base: Str, seed: Str, distance: real, name: Str, mode: Option<Str>)
    requires IsUnicode(js) && HASH !in base
    requires ValidSeed(seed) && 1 <= distance.Floor <= MAX_DISTANCE
    requires WellFormed(name) && CleanName(js, name) == name && CleanMode(mode) == mode
    ensures var url := BuildChallengeUrl(base, seed, distance, name, mode);
      url.Some? && ReadHash(js, HashOf(url.value)) == Some(Challenge(seed, distance.Floor as real, name, mode))
  {
    NameHasNoPercent(js, name);
    DecodePlain(name);
    LinkGivesItsValuesExactly(js, base, seed, distance, name, mode);
  }

  /** Building throws exactly when the name, or a mode that is not empty, holds a lone surrogate. */
  lemma BuildThrowsExactly(base: Str, seed: Str, distance: real, name: Str, mode: Option<Str>)
    ensures BuildChallengeUrl(base, seed, distance, name, mode).None? <==>
            !WellFormed(name) || (mode.Some? && mode.value != [] && !WellFormed(mode.value))
  {
  }

  /** A portal handle is adopted cut to 14 units, so its link throws exactly when the cut splits a surrogate pair. */
  lemma HandleLinkThrowsExactly(base: Str, seed: Str, distance: real, handle: Str, mode: Option<Str>)
    requires WellFormed(handle) && (mode.Some? ==> WellFormed(mode.value))
    ensures BuildChallengeUrl(base, seed, distance, Take(handle, NAME_MAX), mode).None? <==>
            |handle| > NAME_MAX && IsHigh(handle[NAME_MAX - 1])
  {
    BuildThrowsExactly(base, seed, distance, Take(handle, NAME_MAX), mode);
    UnitsOfCodePoints(handle);
    if |handle| > NAME_MAX {
      CutOfScalars(CodePoints(handle), NAME_MAX);
    }
  }

  /** A handle of thirteen letters and one character outside the basic plane is such a one. */
  lemma {:induction false} OddHandleThrows(
      base: Str, seed: Str, distance: real, handle: Str, cps: seq<CodePoint>, mode: Option<Str>)
    requires OddName(cps) && handle == Units(cps) && (mode.Some? ==> WellFormed(mode.value))
    ensures WellFormed(handle) && BuildChallengeUrl(base, seed, distance, Take(handle, NAME_MAX), mode).None?
  {
    OddNameUnits(cps);
    HandleLinkThrowsExactly(base, seed, distance, handle, mode);
  }

  /** A pilot called `5%` builds a link nobody can read, because the name is decoded twice. */
  lemma PercentNameIsUnreadable(js: Js, base: Str, seed: Str, distance: real)
    requires HASH !in base && PlainSeed(seed) && PrintsDigits(distance.Floor)
    ensures var url := BuildChallengeUrl(base, seed, distance, ['5' as int, PERCENT], None);
      url.Some? && ReadHash(js, HashOf(url.value)) == None
  {
    var name: Str := ['5' as int, PERCENT];
    CodePointsOfAscii(name);
    LinkReads(js, base, seed, distance, name, None);
    assert name[1..] == [PERCENT];
    assert DecodeURIComponent([PERCENT]) == None;
  }

  lemma GetLinked(rival: Str, mode: Option<Str>)
    requires mode.Some? ==> mode.value != []
    ensures var ps :=
              [Form.Pair(RIVAL, rival)] + if mode.Some? && mode.value != [] then [Form.Pair(MODE, mode.value)] else [];
      Form.Get(ps, RIVAL) == Some(rival) && Form.Get(ps, MODE) == mode
  {
    var ps := [Form.Pair(RIVAL, rival)] + if mode.Some? && mode.value != [] then [Form.Pair(MODE, mode.value)] else [];
    assert |RIVAL| != |MODE|;
    if mode.Some? {
      assert ps[1..] == [Form.Pair(MODE, mode.value)];
    } else {
      assert ps[1..] == [];
    }
  }
}
