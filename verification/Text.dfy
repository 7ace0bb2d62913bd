/**
 * JavaScript text: strings are sequences of UTF-16 code units. Filtering, splitting, joining and
 * decimal numerals, each with what undoes it.
 */
module Text {
  datatype Option<+T> = None | Some(value: T)

  /** One UTF-16 code unit. */
  type Unit = u: int | 0 <= u < 0x10000

  type Str = seq<Unit>

  /** Keeps the elements that satisfy `p`, in order. */
  function Filter<T>(s: seq<T>, p: T -> bool): (r: seq<T>)
    ensures forall x :: x in r ==> x in s && p(x)
    ensures |r| <= |s|
  {
    if s == [] then [] else (if p(s[0]) then [s[0]] else []) + Filter(s[1..], p)
  }

  lemma {:induction false} FilterAll<T>(s: seq<T>, p: T -> bool)
    requires forall x :: x in s ==> p(x)
    ensures Filter(s, p) == s
  {
    if s != [] {
      FilterAll(s[1..], p);
    }
  }

  lemma {:induction false} FilterConcat<T>(a: seq<T>, b: seq<T>, p: T -> bool)
    ensures Filter(a + b, p) == Filter(a, p) + Filter(b, p)
  {
    if a == [] {
      assert a + b == b;
    } else {
      FilterConcat(a[1..], b, p);
      FilterStep(a, b, p);
    }
  }

  lemma {:induction false} FilterStep<T>(a: seq<T>, b: seq<T>, p: T -> bool)
    requires a != [] && Filter(a[1..] + b, p) == Filter(a[1..], p) + Filter(b, p)
    ensures Filter(a + b, p) == Filter(a, p) + Filter(b, p)
  {
    HeadOfConcat(a, b);
    Regroup(if p(a[0]) then [a[0]] else [], Filter(a[1..], p), Filter(b, p));
  }

  lemma Regroup<T>(a: seq<T>, b: seq<T>, c: seq<T>)
    ensures a + (b + c) == a + b + c
  {
  }

  lemma HeadOfConcat<T>(a: seq<T>, b: seq<T>)
    requires a != []
    ensures (a + b)[0] == a[0] && (a + b)[1..] == a[1..] + b
  {
  }

  /** An element the filter drops may stand anywhere. */
  lemma {:induction false} FilterSkips<T>(a: seq<T>, x: T, b: seq<T>, p: T -> bool)
    requires !p(x)
    ensures Filter(a + ([x] + b), p) == Filter(a + b, p)
  {
    FilterConcat(a, [x] + b, p);
    assert ([x] + b)[1..] == b;
    FilterConcat(a, b, p);
  }

  /** `s.slice(0, n)`. */
  function Take<T>(s: seq<T>, n: nat): (r: seq<T>)
  {
    if |s| <= n then s else s[..n]
  }

  /** `s.split(sep)` for a one-element separator: always at least one part. */
  function Split<T(==)>(s: seq<T>, sep: T): (parts: seq<seq<T>>)
    ensures |parts| >= 1
    ensures forall i :: 0 <= i < |parts| ==> sep !in parts[i]
  {
    if s == [] then [[]]
    else
      var rest := Split(s[1..], sep);
      if s[0] == sep then [[]] + rest else [[s[0]] + rest[0]] + rest[1..]
  }

  /** `parts.join(sep)`. */
  function Join<T>(parts: seq<seq<T>>, sep: T): (s: seq<T>)
  {
    if parts == [] then []
    else if |parts| == 1 then parts[0]
    else parts[0] + [sep] + Join(parts[1..], sep)
  }

  lemma {:induction false} SplitWhole<T>(s: seq<T>, sep: T)
    requires sep !in s
    ensures Split(s, sep) == [s]
  {
    if s != [] {
      SplitWhole(s[1..], sep);
      assert [s[0]] + s[1..] == s;
    }
  }

  lemma {:induction false} SplitFirst<T>(a: seq<T>, b: seq<T>, sep: T)
    requires sep !in a
    ensures Split(a + [sep] + b, sep) == [a] + Split(b, sep)
  {
    var s := a + [sep] + b;
    if a == [] {
      assert s[1..] == b;
    } else {
      SplitFirst(a[1..], b, sep);
      assert s[1..] == a[1..] + [sep] + b;
      assert [a[0]] + a[1..] == a;
    }
  }

  /** Splitting what was joined gives the parts back. */
  lemma {:induction false} SplitJoin<T>(parts: seq<seq<T>>, sep: T)
    requires parts != []
    requires forall i :: 0 <= i < |parts| ==> sep !in parts[i]
    ensures Split(Join(parts, sep), sep) == parts
  {
    if |parts| == 1 {
      SplitWhole(parts[0], sep);
    } else {
      SplitJoin(parts[1..], sep);
      SplitFirst(parts[0], Join(parts[1..], sep), sep);
    }
  }

  /** Joining what was split gives the text back. */
  lemma {:induction false} JoinSplit<T>(s: seq<T>, sep: T)
    ensures Join(Split(s, sep), sep) == s
  {
    if s != [] {
      JoinSplit(s[1..], sep);
      var rest := Split(s[1..], sep);
      if s[0] == sep {
        assert Split(s, sep)[1..] == rest;
        assert [] + [sep] + s[1..] == s;
      } else if |rest| > 1 {
        assert Split(s, sep)[1..] == rest[1..];
        assert [s[0]] + rest[0] + [sep] + Join(rest[1..], sep) == [s[0]] + (rest[0] + [sep] + Join(rest[1..], sep));
      }
    }
  }

  /** The least position of `sep`, or the length when it does not occur. */
  function IndexOf<T(==)>(s: seq<T>, sep: T): (k: nat)
    ensures k <= |s|
    ensures sep !in s[..k]
    ensures k < |s| ==> s[k] == sep
  {
    if s == [] || s[0] == sep then 0
    else
      var k := IndexOf(s[1..], sep);
      assert s[..k + 1] == [s[0]] + s[1..][..k];
      k + 1
  }

  lemma {:induction false} IndexOfFirst<T>(a: seq<T>, b: seq<T>, sep: T)
    requires sep !in a
    ensures IndexOf(a + [sep] + b, sep) == |a|
  {
    var s := a + [sep] + b;
    var k := IndexOf(s, sep);
    assert forall i | 0 <= i < |a| :: s[i] == a[i] && a[i] in a;
    assert forall i | 0 <= i < k :: s[..k][i] == s[i] && s[..k][i] in s[..k];
    assert s[|a|] == sep;
  }

  /* ------------------------------------------------------- decimal numerals */

  predicate IsDigit(u: int) {
    '0' as int <= u <= '9' as int
  }

  /** The decimal numeral of a natural number, without leading zeros. */
  function Decimal(n: nat): (s: Str)
    ensures s != []
    ensures forall u :: u in s ==> IsDigit(u)
  {
    if n < 10 then ['0' as int + n] else Decimal(n / 10) + ['0' as int + n % 10]
  }

  function DecimalValue(s: Str): (n: nat)
    requires forall u :: u in s ==> IsDigit(u)
  {
    if s == [] then 0
    else
      assert IsDigit(s[|s| - 1]);
      DecimalValue(s[..|s| - 1]) * 10 + (s[|s| - 1] - '0' as int)
  }

  lemma {:induction false} DecimalRoundTrip(n: nat)
    ensures DecimalValue(Decimal(n)) == n
  {
    if n >= 10 {
      DecimalRoundTrip(n / 10);
      assert Decimal(n)[..|Decimal(n)| - 1] == Decimal(n / 10);
    } else {
      assert Decimal(n)[..0] == [];
    }
  }
}
