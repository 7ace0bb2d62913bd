/** Rival challenges: the compact `sb1:` token (src/game/Challenge.ts). */
module Challenge {
  import opened Text
  import opened Unicode
  import opened Uri

  /** `mode` is `None` where the source has `undefined`. */
  datatype Challenge = Challenge(seed: Str, distance: real, name: Str, mode: Option<Str>)

  /**
   * What the JavaScript engine decides: which code points are letters or numbers (`\p{L}`,
   * `\p{N}`), and what `Number` makes of a string that is not a plain run of digits, with or
   * without a minus sign (`None` for NaN and the infinities).
   */
  datatype Js = Js(letterOrNumber: CodePoint -> bool, otherNumber: Str -> Option<real>)

  /** Of the ASCII characters exactly letters and digits count, and no surrogate does. */
  ghost predicate IsUnicode(js: Js) {
    && (forall c: CodePoint :: c < 0x80 ==> (js.letterOrNumber(c) <==> IsAlnum(c)))
    && (forall c: CodePoint :: js.letterOrNumber(c) ==> IsScalar(c))
  }

  const COLON: Unit := ':' as int
  const DOT: Unit := '.' as int
  const HASH: Unit := '#' as int
  const MINUS: Unit := '-' as int
  const TOKEN_PREFIX: Str := ['s' as int, 'b' as int, '1' as int]
  const RIVAL: Str := ['r' as int, 'i' as int, 'v' as int, 'a' as int, 'l' as int]
  const MODE: Str := ['m' as int, 'o' as int, 'd' as int, 'e' as int]
  const A_RIVAL: Str := ['A' as int, ' ' as int] + RIVAL
  const NAME_MAX: nat := 14
  const MODE_MAX: nat := 20
  const SEED_MAX: nat := 40
  const MAX_DISTANCE: int := 1_000_000

  /* ---------------------------------------------------------------- cleaning */

  predicate SeedUnit(u: Unit) { IsAlnum(u) || u == MINUS }

  predicate ModeUnit(u: Unit) { SeedUnit(u) && !('A' as int <= u <= 'Z' as int) }

  predicate NameKeeps(js: Js, c: CodePoint) {
    js.letterOrNumber(c) || c in {' ' as int, '_' as int, '.' as int, '-' as int}
  }

  function NamePoints(js: Js, s: Str): (cps: seq<CodePoint>) {
    Filter(CodePoints(s), (c: CodePoint) => NameKeeps(js, c))
  }

  function CleanSeed(s: Str): (r: Str) {
    Take(Filter(s, SeedUnit), SEED_MAX)
  }

  function ModeText(s: Str): (r: Str) {
    Take(Filter(s, ModeUnit), MODE_MAX)
  }

  function CleanMode(mode: Option<Str>): (r: Option<Str>) {
    var t := if mode.None? then [] else ModeText(mode.value);
    if t == [] then None else Some(t)
  }

  function CleanName(js: Js, s: Str): (r: Str) {
    var t := Take(Units(NamePoints(js, s)), NAME_MAX);
    if t == [] then A_RIVAL else t
  }

  /** The cut after 14 code units falls inside a surrogate pair. */
  predicate CutSplitsPair(js: Js, name: Str) {
    var s := Units(NamePoints(js, name));
    |s| > NAME_MAX && IsHigh(s[NAME_MAX - 1])
  }

  predicate ValidSeed(s: Str) {
    1 <= |s| <= SEED_MAX && forall u :: u in s ==> SeedUnit(u)
  }

  /** The form every accepted challenge has. */
  function Cleaned(js: Js, c: Challenge): (r: Challenge) {
    Challenge(CleanSeed(c.seed), AtLeastOne(c.distance.Floor) as real, CleanName(js, c.name), CleanMode(c.mode))
  }

  function AtLeastOne(d: int): (n: nat) { if d < 1 then 1 else d }

  /* ------------------------------------------------------------------ parser */

  predicate AllDigits(s: Str) {
    s != [] && forall u :: u in s ==> IsDigit(u)
  }

  function NumberOf(js: Js, s: Str): (r: Option<real>) {
    if AllDigits(s) then Some(DecimalValue(s) as real)
    else if |s| > 1 && s[0] == MINUS && AllDigits(s[1..]) then Some(-(DecimalValue(s[1..]) as real))
    else js.otherNumber(s)
  }

  function ParseChallengeParts(js: Js, seed: Str, dist: Str, name: Str, mode: Option<Str>): (r: Option<Challenge>)
    ensures r.Some? ==> ValidSeed(r.value.seed) && 1.0 <= r.value.distance <= MAX_DISTANCE as real
  {
    match NumberOf(js, dist)
    case None => None
    case Some(d) =>
      if ValidSeed(seed) && 0 < d.Floor <= MAX_DISTANCE then
        Some(Challenge(seed, d.Floor as real, CleanName(js, name), CleanMode(mode)))
      else None
  }

  /* ------------------------------------------------------------------- token */

  /** `None` where `encodeURIComponent` throws. */
  function PackChallengeToken(js: Js, c: Challenge): (r: Option<Str>) {
    match EncodeURIComponent(CleanName(js, c.name))
    case None => None
    case Some(name) =>
      var parts := [TOKEN_PREFIX, CleanSeed(c.seed), Decimal(AtLeastOne(c.distance.Floor)), name];
      if c.mode.Some? && c.mode.value != [] then
        match EncodeURIComponent(ModeText(c.mode.value))
        case None => None
        case Some(mode) => Some(Join(parts + [mode], COLON))
      else Some(Join(parts, COLON))
  }

  /** White space and line terminators (sections 12.2 and 12.3 of ECMA-262). */
  predicate IsSpace(u: Unit) {
    9 <= u <= 13 || u == 0x20 || u == 0xA0 || u == 0x1680 || 0x2000 <= u <= 0x200A
    || u in {0x2028, 0x2029, 0x202F, 0x205F, 0x3000, 0xFEFF}
  }

  /** These and no other units are white space. */
  lemma SpaceLaw(u: Unit)
    ensures IsSpace(u) <==>
            u in {9, 10, 11, 12, 13, 32, 160, 5760, 8192, 8193, 8194, 8195, 8196, 8197, 8198, 8199, 8200, 8201, 8202,
                  8232, 8233, 8239, 8287, 12288, 65279}
  {
  }

  /** `raw.trim().replace(/\s+/g, "")`. */
  function StripSpace(raw: Str): (r: Str) {
    Filter(raw, (u: Unit) => !IsSpace(u))
  }

  function UnpackChallengeToken(js: Js, raw: Str): (r: Option<Challenge>) {
    UnpackFields(js, Split(StripSpace(raw), COLON))
  }

  function UnpackFields(js: Js, parts: seq<Str>): (r: Option<Challenge>)
    requires parts != []
  {
    if parts[0] != TOKEN_PREFIX || |parts| < 4 || |parts| > 5 then None
    else
      match DecodeURIComponent(parts[3])
      case None => None
      case Some(name) =>
        if |parts| == 5 && parts[4] != [] then
          match DecodeURIComponent(parts[4])
          case None => None
          case Some(mode) => ParseChallengeParts(js, parts[1], parts[2], name, Some(mode))
        else ParseChallengeParts(js, parts[1], parts[2], name, None)
  }

  /* ----------------------------------------------------------- cleaning twice */

  lemma CleanNameUnits(js: Js, s: Str)
    requires IsUnicode(js)
    ensures AllScalars(NamePoints(js, s))
    ensures WellFormed(CleanName(js, s)) <==> !CutSplitsPair(js, s)
    ensures WellFormed(CleanName(js, s)) ==>
              CleanName(js, s) == A_RIVAL || CodePoints(CleanName(js, s)) <= NamePoints(js, s)
  {
    var cps := NamePoints(js, s);
    forall i | 0 <= i < |cps| ensures IsScalar(cps[i]) {
      assert cps[i] in cps;
    }
    var u := Units(cps);
    CodePointsOfAscii(A_RIVAL);
    if |u| > NAME_MAX {
      CutOfScalars(cps, NAME_MAX);
    } else {
      CodePointsOfScalars(cps);
    }
  }

  lemma ARivalIsClean(js: Js)
    requires IsUnicode(js)
    ensures WellFormed(A_RIVAL) && CleanName(js, A_RIVAL) == A_RIVAL
  {
    PlainNameIsClean(js, A_RIVAL);
  }

  lemma {:induction false} PlainNameIsClean(js: Js, s: Str)
    requires IsUnicode(js) && 0 < |s| <= NAME_MAX && Ascii(s) && forall u :: u in s ==> NameKeeps(js, u)
    ensures WellFormed(s) && CleanName(js, s) == s
  {
    CodePointsOfAscii(s);
    FilterAll(CodePoints(s), (c: CodePoint) => NameKeeps(js, c));
    UnitsOfCodePoints(s);
  }

  /** Cleaning a name again changes nothing, as long as the cut split no pair. */
  lemma CleanNameTwice(js: Js, s: Str)
    requires IsUnicode(js) && WellFormed(CleanName(js, s))
    ensures CleanName(js, CleanName(js, s)) == CleanName(js, s)
  {
    CleanNameUnits(js, s);
    var t := CleanName(js, s);
    if t == A_RIVAL {
      ARivalIsClean(js);
    } else {
      var cps := CodePoints(t);
      forall c | c in cps ensures NameKeeps(js, c) {
        assert c in NamePoints(js, s);
      }
      FilterAll(cps, (c: CodePoint) => NameKeeps(js, c));
      UnitsOfCodePoints(t);
    }
  }

  lemma {:induction false} TakeTwice(s: Str, n: nat, p: Unit -> bool)
    ensures var t := Take(Filter(s, p), n); Take(Filter(t, p), n) == t && forall u :: u in t ==> p(u)
  {
    var t := Take(Filter(s, p), n);
    forall u | u in t ensures p(u) {
      assert u in Filter(s, p);
    }
    FilterAll(t, p);
  }

  lemma ModeTextIsPlain(s: Str)
    ensures ModeText(ModeText(s)) == ModeText(s)
    ensures WellFormed(ModeText(s))
  {
    TakeTwice(s, MODE_MAX, ModeUnit);
    var t := ModeText(s);
    forall i | 0 <= i < |t| ensures t[i] < 0x80 {
      assert t[i] in t;
    }
    CodePointsOfAscii(t);
  }

  /* ------------------------------------------------------- token: main results */

  /** Packing throws exactly when the 14-unit cut of the cleaned name splits a surrogate pair. */
  lemma PackThrowsExactlyOnSplitPair(js: Js, c: Challenge)
    requires IsUnicode(js)
    ensures PackChallengeToken(js, c).None? <==> CutSplitsPair(js, c.name)
  {
    CleanNameUnits(js, c.name);
    if c.mode.Some? {
      ModeTextIsPlain(c.mode.value);
    }
  }

  /** Letters with a character outside the basic plane as the fourteenth: the cut falls inside it. */
  predicate OddName(cps: seq<CodePoint>) {
    |cps| == NAME_MAX && cps[NAME_MAX - 1] >= 0x10000 && forall i :: 0 <= i < NAME_MAX - 1 ==> IsAlnum(cps[i])
  }

  lemma {:induction false} OddNameUnits(cps: seq<CodePoint>)
    requires OddName(cps)
    ensures WellFormed(Units(cps)) && CodePoints(Units(cps)) == cps
    ensures |Units(cps)| > NAME_MAX && IsHigh(Units(cps)[NAME_MAX - 1])
  {
    var plain, last := cps[..NAME_MAX - 1], cps[NAME_MAX - 1..];
    assert plain + last == cps && last[1..] == [];
    CodePointsOfScalars(cps);
    UnitsConcat(plain, last);
    CodePointsOfAscii(plain);
    UnitsOfCodePoints(plain);
  }

  /** Such a name cannot be packed where the engine counts its last character as a letter. */
  lemma {:induction false} OddNameThrows(js: Js, c: Challenge, cps: seq<CodePoint>)
    requires IsUnicode(js) && OddName(cps) && js.letterOrNumber(cps[NAME_MAX - 1]) && c.name == Units(cps)
    ensures PackChallengeToken(js, c).None?
  {
    OddNameUnits(cps);
    AllKept(js, c.name, cps);
    PackThrowsExactlyOnSplitPair(js, c);
  }

  lemma {:induction false} AllKept(js: Js, name: Str, cps: seq<CodePoint>)
    requires CodePoints(name) == cps && forall i :: 0 <= i < |cps| ==> NameKeeps(js, cps[i])
    ensures NamePoints(js, name) == cps
  {
    FilterAll(cps, (k: CodePoint) => NameKeeps(js, k));
  }

  /** Thirteen small letters and U+1D400, a bold capital A. */
  const ODD_NAME: seq<CodePoint> := seq(13, i => 'a' as int) + [0x1D400]

  lemma OddNameExists()
    ensures OddName(ODD_NAME)
  {
  }

  /** The four or five fields of a token. */
  function TokenParts(js: Js, c: Challenge): (parts: seq<Str>) {
    [TOKEN_PREFIX, CleanSeed(c.seed), Decimal(AtLeastOne(c.distance.Floor)),
     EncodePoints(CodePoints(CleanName(js, c.name)))]
    + if c.mode.Some? && c.mode.value != [] then [EncodePoints(CodePoints(ModeText(c.mode.value)))] else []
  }

  predicate TokenText(s: Str) {
    forall u :: u in s ==> u != COLON && !IsSpace(u)
  }

  lemma {:induction false} JoinKeeps(parts: seq<Str>, sep: Unit)
    requires forall i :: 0 <= i < |parts| ==> TokenText(parts[i])
    requires !IsSpace(sep)
    ensures forall u :: u in Join(parts, sep) ==> !IsSpace(u)
  {
    if |parts| > 1 {
      JoinKeeps(parts[1..], sep);
    }
  }

  lemma SeedIsPlain(seed: Str)
    ensures TokenText(CleanSeed(seed))
  {
    TakeTwice(seed, SEED_MAX, SeedUnit);
  }

  lemma {:induction false} EncodedIsPlain(cps: seq<CodePoint>)
    ensures TokenText(EncodePoints(cps))
  {
    forall u | u in EncodePoints(cps) ensures u != COLON && !IsSpace(u) {
      assert IsUnreserved(u) || u == PERCENT;
    }
  }

  lemma {:induction false} NumeralIsPlain(n: nat)
    ensures TokenText(Decimal(n))
  {
    forall u | u in Decimal(n) ensures u != COLON && !IsSpace(u) {
      assert IsDigit(u);
    }
  }

  lemma TokenPartsArePlain(js: Js, c: Challenge)
    ensures forall i :: 0 <= i < |TokenParts(js, c)| ==> TokenText(TokenParts(js, c)[i])
  {
    SeedIsPlain(c.seed);
    NumeralIsPlain(AtLeastOne(c.distance.Floor));
    EncodedIsPlain(CodePoints(CleanName(js, c.name)));
    assert TokenText(TOKEN_PREFIX);
    if c.mode.Some? && c.mode.value != [] {
      EncodedIsPlain(CodePoints(ModeText(c.mode.value)));
    }
    FieldsArePlain(
      [TOKEN_PREFIX, CleanSeed(c.seed), Decimal(AtLeastOne(c.distance.Floor)),
       EncodePoints(CodePoints(CleanName(js, c.name)))],
      if c.mode.Some? && c.mode.value != [] then [EncodePoints(CodePoints(ModeText(c.mode.value)))] else []);
  }

  lemma FieldsArePlain(a: seq<Str>, b: seq<Str>)
    requires |a| == 4 && TokenText(a[0]) && TokenText(a[1]) && TokenText(a[2]) && TokenText(a[3])
    requires |b| <= 1 && (b != [] ==> TokenText(b[0]))
    ensures forall i :: 0 <= i < |a + b| ==> TokenText((a + b)[i])
  {
  }

  lemma PackIsJoin(js: Js, c: Challenge)
    requires PackChallengeToken(js, c).Some?
    ensures PackChallengeToken(js, c).value == Join(TokenParts(js, c), COLON)
  {
    var name := EncodePoints(CodePoints(CleanName(js, c.name)));
    var parts := [TOKEN_PREFIX, CleanSeed(c.seed), Decimal(AtLeastOne(c.distance.Floor)), name];
    assert parts + [] == parts;
  }

  /** A token, with white space inserted anywhere, splits into its own fields. */
  lemma TokenFields(js: Js, c: Challenge, raw: Str)
    requires PackChallengeToken(js, c).Some?
    requires StripSpace(raw) == PackChallengeToken(js, c).value
    ensures Split(StripSpace(raw), COLON) == TokenParts(js, c)
  {
    PackIsJoin(js, c);
    TokenPartsArePlain(js, c);
    JoinedFields(TokenParts(js, c));
  }

  lemma {:induction false} JoinedFields(parts: seq<Str>)
    requires parts != []
    requires forall i :: 0 <= i < |parts| ==> TokenText(parts[i])
    ensures Split(Join(parts, COLON), COLON) == parts
    ensures StripSpace(Join(parts, COLON)) == Join(parts, COLON)
  {
    forall i | 0 <= i < |parts| ensures COLON !in parts[i] {
      assert TokenText(parts[i]);
    }
    SplitJoin(parts, COLON);
    JoinKeeps(parts, COLON);
    FilterAll(Join(parts, COLON), (u: Unit) => !IsSpace(u));
  }

  /** Inserting white space is invisible: the packed token has none of its own. */
  lemma TokenHasNoSpace(js: Js, c: Challenge)
    requires PackChallengeToken(js, c).Some?
    ensures StripSpace(PackChallengeToken(js, c).value) == PackChallengeToken(js, c).value
  {
    PackIsJoin(js, c);
    TokenPartsArePlain(js, c);
    JoinedFields(TokenParts(js, c));
  }

  lemma {:induction false} NumeralReadsBack(js: Js, n: nat)
    ensures NumberOf(js, Decimal(n)) == Some(n as real)
  {
    DecimalRoundTrip(n);
  }

  lemma {:induction false} NegativeReadsBack(js: Js, n: nat)
    ensures NumberOf(js, [MINUS] + Decimal(n)) == Some(-(n as real))
  {
    DecimalRoundTrip(n);
    var s := [MINUS] + Decimal(n);
    assert s[0] in s && s[1..] == Decimal(n);
  }

  /**
   * Unpacking any spacing of a packed token gives the cleaned challenge exactly when the cleaned
   * seed is not empty and the distance is at most a million metres; otherwise it gives nothing.
   */
  lemma UnpackOfPack(js: Js, c: Challenge, raw: Str)
    requires IsUnicode(js)
    requires PackChallengeToken(js, c).Some?
    requires StripSpace(raw) == PackChallengeToken(js, c).value
    ensures UnpackChallengeToken(js, raw)
         == if CleanSeed(c.seed) != [] && c.distance.Floor <= MAX_DISTANCE then Some(Cleaned(js, c)) else None
  {
    TokenFields(js, c, raw);
    FieldsUnpack(js, c);
  }

  lemma {:induction false} UnpackFour(js: Js, seed: Str, dist: Str, name: Str)
    requires WellFormed(name)
    ensures UnpackFields(js, [TOKEN_PREFIX, seed, dist, EncodePoints(CodePoints(name))])
         == ParseChallengeParts(js, seed, dist, name, None)
  {
    DecodeEncoded(name);
  }

  lemma {:induction false} UnpackFive(js: Js, seed: Str, dist: Str, name: Str, mode: Str)
    requires WellFormed(name)
    ensures UnpackFields(
              js, [TOKEN_PREFIX, seed, dist, EncodePoints(CodePoints(name)), EncodePoints(CodePoints(ModeText(mode)))])
         == ParseChallengeParts(js, seed, dist, name, if ModeText(mode) == [] then None else Some(ModeText(mode)))
  {
    DecodeEncoded(name);
    UnpackMode(mode);
  }

  lemma FieldsUnpack(js: Js, c: Challenge)
    requires IsUnicode(js)
    requires PackChallengeToken(js, c).Some?
    ensures UnpackFields(js, TokenParts(js, c))
         == if CleanSeed(c.seed) != [] && c.distance.Floor <= MAX_DISTANCE then Some(Cleaned(js, c)) else None
  {
    var name := CleanName(js, c.name);
    assert WellFormed(name);
    var seed, dist := CleanSeed(c.seed), Decimal(AtLeastOne(c.distance.Floor));
    var encoded := EncodePoints(CodePoints(name));
    if c.mode.Some? && c.mode.value != [] {
      UnpackFive(js, seed, dist, name, c.mode.value);
      UnpackMode(c.mode.value);
      PartsParse(js, c, if ModeText(c.mode.value) == [] then None else Some(ModeText(c.mode.value)));
      FiveFields(seed, dist, encoded, EncodePoints(CodePoints(ModeText(c.mode.value))));
    } else {
      PartsParse(js, c, None);
      UnpackFour(js, seed, dist, name);
      FourFields(seed, dist, encoded);
    }
  }

  lemma FiveFields(seed: Str, dist: Str, name: Str, mode: Str)
    ensures [TOKEN_PREFIX, seed, dist, name] + [mode] == [TOKEN_PREFIX, seed, dist, name, mode]
  {
  }

  lemma FourFields(seed: Str, dist: Str, name: Str)
    ensures [TOKEN_PREFIX, seed, dist, name] + [] == [TOKEN_PREFIX, seed, dist, name]
  {
  }

  lemma PartsParse(js: Js, c: Challenge, mode: Option<Str>)
    requires IsUnicode(js) && WellFormed(CleanName(js, c.name))
    ensures ParseChallengeParts(
              js, CleanSeed(c.seed), Decimal(AtLeastOne(c.distance.Floor)), CleanName(js, c.name), mode)
         == if CleanSeed(c.seed) != [] && c.distance.Floor <= MAX_DISTANCE then
              Some(Cleaned(js, c).(mode := CleanMode(mode)))
            else None
  {
    CleanNameTwice(js, c.name);
    NumeralReadsBack(js, AtLeastOne(c.distance.Floor));
    TakeTwice(c.seed, SEED_MAX, SeedUnit);
  }

  /** The mode field decodes to the cleaned mode, and an empty field means no mode. */
  lemma UnpackMode(mode: Str)
    ensures CleanMode(Some(ModeText(mode))) == CleanMode(Some(mode))
    ensures EncodePoints(CodePoints(ModeText(mode))) == [] <==> ModeText(mode) == []
    ensures DecodeURIComponent(EncodePoints(CodePoints(ModeText(mode)))) == Some(ModeText(mode))
  {
    ModeTextIsPlain(mode);
    DecodeEncoded(ModeText(mode));
    UnitsOfCodePoints(ModeText(mode));
  }

  /** For a valid challenge the token is an exact offline copy of its cleaned form. */
  lemma TokenRoundTrip(js: Js, c: Challenge, raw: Str)
    requires IsUnicode(js)
    requires ValidSeed(c.seed) && 1 <= c.distance.Floor <= MAX_DISTANCE && !CutSplitsPair(js, c.name)
    requires PackChallengeToken(js, c).Some? ==> StripSpace(raw) == PackChallengeToken(js, c).value
    ensures UnpackChallengeToken(js, raw) == Some(Cleaned(js, c))
    ensures Cleaned(js, c).seed == c.seed && Cleaned(js, c).distance == c.distance.Floor as real
  {
    PackThrowsExactlyOnSplitPair(js, c);
    FilterAll(c.seed, SeedUnit);
    UnpackOfPack(js, c, raw);
  }

  /* ------------------------------------------------------------------ typed spacing */

  /** A white-space unit put in before position `at`, or at the end. */
  datatype Insertion = Insertion(at: nat, space: Unit)

  function Spaced(s: Str, i: Insertion): (r: Str) {
    var at := if i.at < |s| then i.at else |s|;
    s[..at] + ([i.space] + s[at..])
  }

  /** White space put in again and again, anywhere, also among what was put in before. */
  function Respaced(s: Str, insertions: seq<Insertion>): (r: Str)
    decreases |insertions|
  {
    if insertions == [] then s else Respaced(Spaced(s, insertions[0]), insertions[1..])
  }

  predicate AllSpaces(insertions: seq<Insertion>) {
    forall i :: 0 <= i < |insertions| ==> IsSpace(insertions[i].space)
  }

  lemma SpacedStrips(s: Str, i: Insertion)
    requires IsSpace(i.space)
    ensures StripSpace(Spaced(s, i)) == StripSpace(s)
  {
    var at := if i.at < |s| then i.at else |s|;
    FilterSkips(s[..at], i.space, s[at..], (u: Unit) => !IsSpace(u));
    assert s == s[..at] + s[at..];
  }

  lemma {:induction false} RespacedStrips(s: Str, insertions: seq<Insertion>)
    requires AllSpaces(insertions)
    ensures StripSpace(Respaced(s, insertions)) == StripSpace(s)
    decreases |insertions|
  {
    if insertions != [] {
      SpacedStrips(s, insertions[0]);
      RespacedStrips(Spaced(s, insertions[0]), insertions[1..]);
    }
  }

  /** However a token is broken up by white space on its way, the copy it unpacks to is the same. */
  lemma {:induction false} SpacedTokenRoundTrip(js: Js, c: Challenge, insertions: seq<Insertion>)
    requires IsUnicode(js) && AllSpaces(insertions)
    requires ValidSeed(c.seed) && 1 <= c.distance.Floor <= MAX_DISTANCE && !CutSplitsPair(js, c.name)
    ensures var token := PackChallengeToken(js, c);
      token.Some? && UnpackChallengeToken(js, Respaced(token.value, insertions)) == Some(Cleaned(js, c))
  {
    PackThrowsExactlyOnSplitPair(js, c);
    var token := PackChallengeToken(js, c).value;
    TokenHasNoSpace(js, c);
    RespacedStrips(token, insertions);
    TokenRoundTrip(js, c, Respaced(token, insertions));
  }
}
