/** Which seeds, names and modes a challenge carries unchanged (src/game/Challenge.ts). */
module Carried {
  import opened Text
  import opened Unicode
  import opened Uri
  import opened Challenge
  import opened ChallengeUrl

  /* ------------------------------------------------ the characters, spelled out */

  predicate DigitUnit(u: int) { 48 <= u <= 57 }

  predicate SmallUnit(u: int) { 97 <= u <= 122 }

  predicate CapitalUnit(u: int) { 65 <= u <= 90 }

  /** 1 to 40 digits, letters of either case and minus signs. */
  predicate GoodSeed(s: Str) {
    1 <= |s| <= 40 && forall u :: u in s ==> DigitUnit(u) || CapitalUnit(u) || SmallUnit(u) || u == 45
  }

  /** No mode, or 1 to 20 digits, small letters and minus signs. */
  predicate GoodMode(mode: Option<Str>) {
    mode.Some? ==>
      1 <= |mode.value| <= 20 && forall u :: u in mode.value ==> DigitUnit(u) || SmallUnit(u) || u == 45
  }

  /** A letter or a number of any script, a space, an underscore, a dot or a minus. */
  predicate NameChar(js: Js, c: CodePoint) {
    js.letterOrNumber(c) || c == 32 || c == 95 || c == 46 || c == 45
  }

  /** Well-formed, of 1 to 14 units, and nothing but such characters. */
  predicate GoodName(js: Js, s: Str) {
    WellFormed(s) && 1 <= |s| <= 14 && forall c :: c in CodePoints(s) ==> NameChar(js, c)
  }

  /* -------------------------------------------------------------------- cleaning */

  lemma SeedIsKept(s: Str)
    ensures ValidSeed(s) <==> GoodSeed(s)
    ensures CleanSeed(s) == s && s != [] <==> GoodSeed(s)
  {
    assert forall u: Unit :: SeedUnit(u) <==> DigitUnit(u) || CapitalUnit(u) || SmallUnit(u) || u == 45;
    if GoodSeed(s) {
      FilterAll(s, SeedUnit);
    }
  }

  lemma ModeIsKept(mode: Option<Str>)
    ensures CleanMode(mode) == mode <==> GoodMode(mode)
  {
    assert forall u: Unit :: ModeUnit(u) <==> DigitUnit(u) || SmallUnit(u) || u == 45;
    ModeIsKeptExactly(mode);
  }

  lemma CharIsKept(js: Js, c: CodePoint)
    ensures NameKeeps(js, c) <==> NameChar(js, c)
  {
  }

  lemma {:induction false} GoodPointsAreKept(js: Js, s: Str)
    requires forall c :: c in CodePoints(s) ==> NameChar(js, c)
    ensures NamePoints(js, s) == CodePoints(s)
  {
    var cps := CodePoints(s);
    forall i | 0 <= i < |cps| ensures NameKeeps(js, cps[i]) {
      assert cps[i] in cps;
      CharIsKept(js, cps[i]);
    }
    AllKept(js, s, cps);
  }

  lemma {:induction false} GoodNameIsKept(js: Js, s: Str)
    requires GoodName(js, s)
    ensures CleanName(js, s) == s
  {
    GoodPointsAreKept(js, s);
    UnitsOfCodePoints(s);
  }

  lemma {:induction false} AsciiIsGood(js: Js, s: Str)
    requires IsUnicode(js) && Ascii(s) && 1 <= |s| <= 14 && forall u :: u in s ==> IsAlnum(u) || u == 32
    ensures GoodName(js, s)
  {
    CodePointsOfAscii(s);
    forall c | c in s ensures NameChar(js, c) {
    }
  }

  lemma ARivalIsGood(js: Js)
    requires IsUnicode(js)
    ensures GoodName(js, A_RIVAL)
  {
    AsciiIsGood(js, A_RIVAL);
  }

  lemma {:induction false} KeptNameIsGood(js: Js, s: Str)
    requires IsUnicode(js) && WellFormed(s) && CleanName(js, s) == s
    ensures GoodName(js, s)
  {
    if s == A_RIVAL {
      ARivalIsGood(js);
    } else {
      CleanNameUnits(js, s);
      PrefixIsGood(js, CodePoints(s), NamePoints(js, s));
    }
  }

  lemma {:induction false} PrefixIsGood(js: Js, a: seq<CodePoint>, b: seq<CodePoint>)
    requires a <= b && forall c :: c in b ==> NameKeeps(js, c)
    ensures forall c :: c in a ==> NameChar(js, c)
  {
    forall c | c in a ensures NameChar(js, c) {
      assert c in b;
      CharIsKept(js, c);
    }
  }

  lemma {:induction false} NameIsKept(js: Js, s: Str)
    requires IsUnicode(js)
    ensures WellFormed(s) && CleanName(js, s) == s <==> GoodName(js, s)
  {
    if GoodName(js, s) {
      GoodNameIsKept(js, s);
    } else if WellFormed(s) && CleanName(js, s) == s {
      KeptNameIsGood(js, s);
    }
  }

  /* ---------------------------------------------------------------- the token */

  /** A token is "sb1", seed, distance, name and, if there is one, mode, with colons between them. */
  lemma TokenText(js: Js, c: Challenge, dist: Str, name: Str)
    requires IsUnicode(js) && GoodSeed(c.seed) && GoodName(js, c.name) && GoodMode(c.mode) && c.distance >= 1.0
    requires dist == Decimal(c.distance.Floor) && Some(name) == EncodeURIComponent(c.name)
    ensures c.mode.None? ==>
              PackChallengeToken(js, c) == Some([115, 98, 49] + [58] + c.seed + [58] + dist + [58] + name)
    ensures c.mode.Some? ==>
              PackChallengeToken(js, c) ==
              Some([115, 98, 49] + [58] + c.seed + [58] + dist + [58] + name + [58] + c.mode.value)
  {
    SeedIsKept(c.seed);
    NameIsKept(js, c.name);
    if c.mode.Some? {
      GoodModeIsSentAsIs(c.mode);
      FiveFields(c.seed, dist, name, c.mode.value);
      JoinFive(TOKEN_PREFIX, c.seed, dist, name, c.mode.value);
    } else {
      JoinFour(TOKEN_PREFIX, c.seed, dist, name);
    }
  }

  /** A token carries a challenge unchanged exactly when each of its parts is good. */
  lemma TokenCarriesExactly(js: Js, c: Challenge)
    requires IsUnicode(js)
    ensures var token := PackChallengeToken(js, c);
      (token.Some? && UnpackChallengeToken(js, token.value) == Some(c)) <==>
      GoodSeed(c.seed) && c.distance == c.distance.Floor as real && 1 <= c.distance.Floor <= 1_000_000 &&
      GoodName(js, c.name) && GoodMode(c.mode)
  {
    SeedIsKept(c.seed);
    NameIsKept(js, c.name);
    ModeIsKept(c.mode);
    PackThrowsExactlyOnSplitPair(js, c);
    CleanNameUnits(js, c.name);
    var token := PackChallengeToken(js, c);
    if token.Some? {
      TokenHasNoSpace(js, c);
      UnpackOfPack(js, c, token.value);
    }
  }

  lemma JoinFour(a: Str, b: Str, c: Str, d: Str)
    ensures Join([a, b, c, d], COLON) == a + [COLON] + b + [COLON] + c + [COLON] + d
  {
    assert [a, b, c, d][1..] == [b, c, d] && [b, c, d][1..] == [c, d] && [c, d][1..] == [d];
    assert Join([c, d], COLON) == c + [COLON] + d;
    assert Join([b, c, d], COLON) == b + [COLON] + (c + [COLON] + d);
  }

  lemma JoinFive(a: Str, b: Str, c: Str, d: Str, e: Str)
    ensures Join([a, b, c, d, e], COLON) == a + [COLON] + b + [COLON] + c + [COLON] + d + [COLON] + e
  {
    assert [a, b, c, d, e][1..] == [b, c, d, e];
    JoinFour(b, c, d, e);
  }

  /** Letters, digits and minus signs are sent as they are. */
  lemma {:induction false} PlainIsSentAsIs(s: Str)
    requires forall u :: u in s ==> IsAlnum(u) || u == 45
    ensures EncodeURIComponent(s) == Some(s)
  {
    forall i | 0 <= i < |s| ensures s[i] < 0x80 {
      assert s[i] in s;
    }
    CodePointsOfAscii(s);
    PlainPoints(s);
  }

  lemma {:induction false} PlainPoints(s: Str)
    requires Ascii(s) && forall u :: u in s ==> IsAlnum(u) || u == 45
    ensures EncodePoints(s) == s
  {
    if s != [] {
      PlainPoints(s[1..]);
      assert EncodePoint(s[0]) == [s[0]];
      assert s == [s[0]] + s[1..];
    }
  }

  lemma GoodModeIsSentAsIs(mode: Option<Str>)
    requires GoodMode(mode) && mode.Some?
    ensures ModeText(mode.value) == mode.value && EncodeURIComponent(mode.value) == Some(mode.value)
  {
    ModeIsKept(mode);
    PlainIsSentAsIs(mode.value);
  }

  /** A text that does not start with "sb1", or has other than four or five fields, is no token. */
  lemma NoToken(js: Js, raw: Str)
    ensures var parts := Split(StripSpace(raw), COLON);
      parts[0] != [115, 98, 49] || |parts| < 4 || |parts| > 5 ==> UnpackChallengeToken(js, raw) == None
  {
  }

  /** What a token makes of a name, for good seeds and distances in range. */
  lemma TokenName(js: Js, c: Challenge)
    requires IsUnicode(js) && GoodSeed(c.seed) && 1 <= c.distance.Floor <= 1_000_000
    ensures var token := PackChallengeToken(js, c);
      token.Some? ==>
        var r := UnpackChallengeToken(js, token.value);
        r.Some? && r.value.name == CleanName(js, c.name) && r.value.seed == c.seed &&
        r.value.distance == c.distance.Floor as real
  {
    SeedIsKept(c.seed);
    if PackChallengeToken(js, c).Some? {
      TokenHasNoSpace(js, c);
      UnpackOfPack(js, c, PackChallengeToken(js, c).value);
    }
  }

  /** A distance under a metre is sent as one, and a broken one is rounded down. */
  lemma DistanceSent(js: Js, c: Challenge)
    requires IsUnicode(js) && GoodSeed(c.seed) && GoodName(js, c.name) && c.distance.Floor <= 1_000_000
    ensures var token := PackChallengeToken(js, c);
      token.Some? &&
      var r := UnpackChallengeToken(js, token.value);
      r.Some? && r.value.distance == if c.distance < 1.0 then 1.0 else c.distance.Floor as real
  {
    SeedIsKept(c.seed);
    NameIsKept(js, c.name);
    PackThrowsExactlyOnSplitPair(js, c);
    CleanNameUnits(js, c.name);
    TokenHasNoSpace(js, c);
    UnpackOfPack(js, c, PackChallengeToken(js, c).value);
  }

  /** A longer name of good characters is cut to 14 units, or cannot be packed when that splits a character. */
  lemma {:induction false} LongNameIsCut(js: Js, c: Challenge)
    requires IsUnicode(js) && GoodSeed(c.seed) && 1 <= c.distance.Floor <= 1_000_000
    requires WellFormed(c.name) && |c.name| > 14 && forall k :: k in CodePoints(c.name) ==> NameChar(js, k)
    ensures var token := PackChallengeToken(js, c);
      (token.None? <==> 0xD800 <= c.name[13] < 0xDC00) &&
      (token.Some? ==>
         var r := UnpackChallengeToken(js, token.value);
         r.Some? && r.value.name == c.name[..14])
  {
    GoodPointsAreKept(js, c.name);
    UnitsOfCodePoints(c.name);
    PackThrowsExactlyOnSplitPair(js, c);
    TokenName(js, c);
  }

  /** A name with no good character becomes "A rival". */
  lemma {:induction false} EmptyNameIsARival(js: Js, c: Challenge)
    requires IsUnicode(js) && GoodSeed(c.seed) && 1 <= c.distance.Floor <= 1_000_000
    requires forall k :: k in CodePoints(c.name) ==> !NameChar(js, k)
    ensures var token := PackChallengeToken(js, c);
      token.Some? &&
      var r := UnpackChallengeToken(js, token.value);
      r.Some? && r.value.name == [65, 32, 114, 105, 118, 97, 108]
  {
    NothingIsARival(js, c.name);
    PackThrowsExactlyOnSplitPair(js, c);
    TokenName(js, c);
  }

  lemma {:induction false} NothingIsARival(js: Js, s: Str)
    requires forall k :: k in CodePoints(s) ==> !NameChar(js, k)
    ensures CleanName(js, s) == [65, 32, 114, 105, 118, 97, 108] && !CutSplitsPair(js, s)
  {
    NoneKept(js, CodePoints(s));
  }

  lemma {:induction false} NoneKept(js: Js, cps: seq<CodePoint>)
    requires forall k :: k in cps ==> !NameChar(js, k)
    ensures Filter(cps, (c: CodePoint) => NameKeeps(js, c)) == []
  {
    if cps != [] {
      CharIsKept(js, cps[0]);
      NoneKept(js, cps[1..]);
    }
  }

  /** A character that is not good is left out wherever it stands, and the others keep their order. */
  lemma {:induction false} BadCharIsDropped(js: Js, a: seq<CodePoint>, k: CodePoint, b: seq<CodePoint>)
    requires IsUnicode(js) && AllScalars(a) && AllScalars(b) && IsScalar(k) && !NameChar(js, k)
    ensures CleanName(js, Units(a + ([k] + b))) == CleanName(js, Units(a + b))
  {
    CharIsKept(js, k);
    CodePointsOfScalars(a + ([k] + b));
    CodePointsOfScalars(a + b);
    FilterSkips(a, k, b, (c: CodePoint) => NameKeeps(js, c));
  }

  /* ------------------------------------------------------------------- the link */

  /** A link is the address, "#rival=", seed, distance and name with dots between them, and "&mode=" with the mode. */
  lemma LinkIs(base: Str, seed: Str, distance: real, name: Str, mode: Option<Str>, dist: Str, encoded: Str)
    requires Some(encoded) == EncodeURIComponent(name) && GoodMode(mode) && distance >= 0.0
    requires dist == Decimal(distance.Floor)
    ensures var link := base + [35, 114, 105, 118, 97, 108, 61] + (seed + [46] + dist + [46] + encoded);
      BuildChallengeUrl(base, seed, distance, name, mode) ==
      Some(if mode.Some? then link + ([38, 109, 111, 100, 101, 61] + mode.value) else link)
  {
    JoinThree(seed, dist, encoded);
    var fields := seed + [46] + dist + [46] + encoded;
    LinkHead(base, fields);
    if mode.Some? {
      GoodModeIsSentAsIs(mode);
      LinkTail(base + [35, 114, 105, 118, 97, 108, 61] + fields, mode.value);
    }
  }

  lemma LinkHead(base: Str, fields: Str)
    ensures base + [HASH] + (RIVAL + [61] + fields) == base + [35, 114, 105, 118, 97, 108, 61] + fields
  {
  }

  lemma LinkTail(head: Str, mode: Str)
    ensures head + [38] + MODE + [61] + mode == head + ([38, 109, 111, 100, 101, 61] + mode)
  {
  }

  lemma {:induction false} GoodNameHasNoPercent(js: Js, s: Str)
    requires IsUnicode(js) && GoodName(js, s)
    ensures DecodeURIComponent(s) == Some(s)
  {
    NameIsKept(js, s);
    NameHasNoPercent(js, s);
    DecodePlain(s);
  }

  /**
   * A link carries seed, distance, name and mode unchanged exactly when each is good: the second
   * decoding of the name gains nothing and costs nothing.
   */
  lemma LinkCarriesExactly(js: Js, base: Str, seed: Str, distance: real, name: Str, mode: Option<Str>)
    requires IsUnicode(js) && HASH !in base
    ensures var url := BuildChallengeUrl(base, seed, distance, name, mode);
      (url.Some? &&
       ReadHash(js, HashOf(url.value)) == Some(Challenge(seed, distance.Floor as real, name, mode))) <==>
      GoodSeed(seed) && 1 <= distance.Floor <= 1_000_000 && GoodName(js, name) && GoodMode(mode)
  {
    LinkGivesItsValuesExactly(js, base, seed, distance, name, mode);
    SeedIsKept(seed);
    ModeIsKept(mode);
    NameIsKept(js, name);
    if GoodName(js, name) {
      GoodNameHasNoPercent(js, name);
    } else if Sendable(js, seed, distance.Floor, name, mode) {
      DecodedIsGood(js, name, DecodeURIComponent(name).value);
    }
  }

  /** A name that the cleaning of some text gives, and that is well-formed, is good. */
  lemma {:induction false} DecodedIsGood(js: Js, name: Str, again: Str)
    requires IsUnicode(js) && WellFormed(name) && CleanName(js, again) == name
    ensures GoodName(js, name)
  {
    CleanNameTwice(js, again);
    NameIsKept(js, name);
  }

  /** A value without a dot is no challenge; one with a seed and a distance alone is that of "A rival". */
  lemma {:induction false} NamelessLink(js: Js, seed: Str, distance: nat, mode: Option<Str>)
    requires IsUnicode(js) && GoodSeed(seed) && 1 <= distance <= 1_000_000
    ensures ReadRival(js, seed, mode) == None
    ensures ReadRival(js, seed + [DOT] + Decimal(distance), mode) ==
            Some(Challenge(seed, distance as real, [65, 32, 114, 105, 118, 97, 108], CleanMode(mode)))
  {
    SeedIsKept(seed);
    ValidSeedIsPlain(seed);
    IntegerIsPlain(distance);
    SplitWhole(seed, DOT);
    SplitFirst(seed, Decimal(distance), DOT);
    SplitWhole(Decimal(distance), DOT);
    NumeralReadsBack(js, distance);
    NothingIsARival(js, []);
  }
}
