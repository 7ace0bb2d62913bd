/**
 * Thinning a flight before it is published (src/game/GhostNet.ts): which samples are picked, and
 * how evenly.
 */
module GhostNet {
  import opened Numbers
  import opened Text

  /** `Math.round(i * step)` where step is the exact stride `n` over `m`. */
  function Pick(i: nat, n: nat, m: nat): (k: int)
    requires m > 0
  {
    Round(i as real * (n as real / m as real))
  }

  /** The same in whole numbers: the floor of (2in + m) over 2m. */
  function PickWhole(i: nat, n: nat, m: nat): (k: nat)
    requires m > 0
  {
    (2 * i * n + m) / (2 * m)
  }

  lemma WholeQuotient(a: nat, b: nat)
    requires b > 0
    ensures (a as real / b as real).Floor == a / b
  {
    var q := a / b;
    var r := a % b;
    assert a == b * q + r;
    assert a as real == b as real * q as real + r as real;
    assert a as real / b as real == q as real + r as real / b as real;
    assert 0.0 <= r as real / b as real < 1.0;
  }

  lemma PickIsWhole(i: nat, n: nat, m: nat)
    requires m > 0
    ensures Pick(i, n, m) == PickWhole(i, n, m)
  {
    var x := i as real * (n as real / m as real) + 0.5;
    var a, b := 2 * i * n + m, 2 * m;
    Stretch(i as real, n as real, m as real, a as real, b as real);
    WholeQuotient(a, b);
  }

  lemma Stretch(i: real, n: real, m: real, a: real, b: real)
    requires m > 0.0 && a == 2.0 * i * n + m && b == 2.0 * m
    ensures i * (n / m) + 0.5 == a / b
  {
    var s := n / m;
    assert s * m == n;
    assert (i * s + 0.5) * b == a by {
      assert (i * s + 0.5) * b == 2.0 * i * (s * m) + m;
    }
    QuotientIs(i * s + 0.5, a, b);
  }

  lemma QuotientIs(x: real, a: real, b: real)
    requires b > 0.0 && x * b == a
    ensures x == a / b
  {
  }

  /** The quotients of two numbers a fixed distance apart differ by the floor or the ceiling of its share. */
  lemma QuotientStep(a: nat, d: nat, q: nat)
    requires q > 0
    ensures (a + d) / q - a / q == d / q || (d % q != 0 && (a + d) / q - a / q == d / q + 1)
  {
    AddQuotients(a, d, a / q, d / q, a % q, d % q, q);
    Divide(a + d, a / q + d / q, a % q + d % q, q);
  }

  lemma AddQuotients(a: int, d: int, j: int, k: int, r: int, s: int, q: int)
    requires a == j * q + r && d == k * q + s
    ensures a + d == (j + k) * q + (r + s)
  {
  }

  lemma Divide(n: nat, k: nat, r: nat, q: nat)
    requires q > 0 && n == k * q + r && r < 2 * q
    ensures n / q == if r < q then k else k + 1
  {
    if r < q {
      DivideExact(n, k, r, q);
    } else {
      assert n == (k + 1) * q + (r - q);
      DivideExact(n, k + 1, r - q, q);
    }
  }

  lemma DivideExact(n: nat, k: nat, r: nat, q: nat)
    requires q > 0 && n == k * q + r && r < q
    ensures n / q == k
  {
    SameQuotient(n / q, k, n % q, r, q);
  }

  lemma SameQuotient(e: int, k: int, s: int, r: int, q: int)
    requires e * q + s == k * q + r && 0 <= s < q && 0 <= r < q
    ensures e == k
  {
    if e > k {
      AtLeastOneMore(e, k, q);
    } else if e < k {
      AtLeastOneMore(k, e, q);
    }
  }

  lemma AtLeastOneMore(e: int, k: int, q: int)
    requires e > k && q > 0
    ensures e * q >= k * q + q
  {
    assert (e - k - 1) * q >= 0;
    assert e * q == (e - k - 1) * q + k * q + q;
  }

  lemma Halve(n: nat, m: nat)
    requires m > 0
    ensures 2 * n / (2 * m) == n / m && (2 * n % (2 * m) != 0 <==> n % m != 0)
  {
    var k, r := n / m, n % m;
    assert 2 * n == k * (2 * m) + 2 * r;
    DivideExact(2 * n, k, 2 * r, 2 * m);
  }

  /** Neighbouring picks are the floor or the ceiling of the stride apart. */
  lemma PickGap(i: nat, n: nat, m: nat)
    requires m > 0
    ensures var gap := PickWhole(i + 1, n, m) - PickWhole(i, n, m);
      gap == n / m || (n % m != 0 && gap == n / m + 1)
  {
    QuotientStep(2 * i * n + m, 2 * n, 2 * m);
    assert 2 * (i + 1) * n + m == 2 * i * n + m + 2 * n;
    Halve(n, m);
  }

  lemma FirstAndLast(n: nat, m: nat)
    requires m > 0
    ensures PickWhole(0, n, m) == 0 && PickWhole(m, n, m) == n
  {
    DivideExact(2 * m * n + m, n, m, 2 * m);
    DivideExact(m, 0, m, 2 * m);
  }

  /** No pick is more than half a sample from its exact place. */
  lemma PickIsNearest(i: nat, n: nat, m: nat)
    requires m > 0
    ensures var exact := i as real * (n as real / m as real);
      exact - 0.5 < Pick(i, n, m) as real <= exact + 0.5
  {
  }

  lemma {:induction false} PicksGrow(i: nat, j: nat, n: nat, m: nat)
    requires 0 < m <= n && i <= j
    ensures PickWhole(j, n, m) >= PickWhole(i, n, m) + (j - i)
    decreases j - i
  {
    if i < j {
      PicksGrow(i, j - 1, n, m);
      PickGap(j - 1, n, m);
      StrideAtLeastOne(n, m);
    }
  }

  lemma StrideAtLeastOne(n: nat, m: nat)
    requires 0 < m <= n
    ensures n / m >= 1
  {
    assert n == m * (n / m) + n % m;
  }

  lemma PickInRange(i: nat, n: nat, m: nat)
    requires 0 < m <= n && i <= m
    ensures 0 <= Pick(i, n, m) <= n
  {
    PickIsWhole(i, n, m);
    PicksGrow(i, m, n, m);
    FirstAndLast(n, m);
  }

  /** The picked positions of a list of `count` samples cut to `max`. */
  function Picks(count: nat, max: nat): (ks: seq<nat>)
    requires 2 <= max < count
    ensures |ks| == max && forall i :: 0 <= i < max ==> ks[i] == PickWhole(i, count - 1, max - 1)
  {
    seq(max, i requires 0 <= i < max => PickWhole(i, count - 1, max - 1))
  }

  /** `None` is the undefined that an index which is no number reads: the stride to a single pick is infinite. */
  function Thinned<S>(samples: seq<S>, max: nat): (out: seq<Option<S>>)
    ensures |out| == if |samples| < max then |samples| else max
  {
    if |samples| <= max then seq(|samples|, i requires 0 <= i < |samples| => Some(samples[i]))
    else if max < 2 then seq(max, i => None)
    else
      seq(max, i requires 0 <= i < max =>
        PickInRange(i, |samples| - 1, max - 1);
        Some(samples[Pick(i, |samples| - 1, max - 1)]))
  }

  /** A list of two samples or more cannot be cut to one: the one pick is undefined, and no other ever is. */
  lemma HoleExactlyAtOne<S>(samples: seq<S>, max: nat)
    ensures None in Thinned(samples, max) <==> max == 1 && |samples| > 1
  {
    var out := Thinned(samples, max);
    if max == 1 && |samples| > 1 {
      assert out[0] == None;
    }
  }

  /**
   * The whole promise: exactly the smaller of the two counts and, unless the cut is to one sample
   * or none, first and last kept, in strictly ascending order, evenly spaced.
   */
  lemma ThinIsEven<S>(samples: seq<S>, max: nat)
    ensures var out := Thinned(samples, max);
      |out| == (if |samples| < max then |samples| else max) &&
      (samples != [] && (max > 1 || |samples| <= max) ==>
         out[0] == Some(samples[0]) && out[|out| - 1] == Some(samples[|samples| - 1]))
    ensures |samples| <= max ==> forall i :: 0 <= i < |samples| ==> Thinned(samples, max)[i] == Some(samples[i])
    ensures 1 < max < |samples| ==>
      var ks := Picks(|samples|, max);
      Ascending(ks, |samples|) && EvenGaps(ks, |samples| - 1, max - 1) &&
      forall i :: 0 <= i < max ==> Thinned(samples, max)[i] == Some(samples[ks[i]])
  {
    if 1 < max < |samples| {
      var n, m := |samples| - 1, max - 1;
      FirstAndLast(n, m);
      PickIsWhole(0, n, m);
      PickIsWhole(m, n, m);
      PicksAscend(|samples|, max);
      forall i | 0 <= i < max ensures Pick(i, n, m) == PickWhole(i, n, m) {
        PickIsWhole(i, n, m);
      }
    }
  }

  predicate Ascending(ks: seq<nat>, count: nat) {
    && (forall i, j :: 0 <= i < j < |ks| ==> ks[i] < ks[j])
    && (forall i :: 0 <= i < |ks| ==> ks[i] < count)
  }

  predicate EvenGaps(ks: seq<nat>, n: nat, m: nat)
    requires m > 0
  {
    forall i :: 0 < i < |ks| ==> IsStride(ks[i] as int - ks[i - 1] as int, n, m)
  }

  /** The floor or the ceiling of `n` over `m`. */
  predicate IsStride(gap: int, n: nat, m: nat)
    requires m > 0
  {
    gap == n / m || (n % m != 0 && gap == n / m + 1)
  }

  lemma PicksAscend(count: nat, max: nat)
    requires 2 <= max < count
    ensures Ascending(Picks(count, max), count) && EvenGaps(Picks(count, max), count - 1, max - 1)
  {
    var ks := Picks(count, max);
    var n, m := count - 1, max - 1;
    forall i, j | 0 <= i < j < max ensures ks[i] < ks[j] {
      PicksGrow(i, j, n, m);
    }
    forall i | 0 <= i < max ensures ks[i] < count {
      PicksGrow(i, m, n, m);
      FirstAndLast(n, m);
    }
    forall i | 0 < i < max ensures IsStride(ks[i] as int - ks[i - 1] as int, n, m) {
      PickGap(i - 1, n, m);
    }
  }

  method Thin<S>(samples: seq<S>, max: nat) returns (out: seq<Option<S>>)
    ensures out == Thinned(samples, max)
  {
    if |samples| <= max {
      return seq(|samples|, i requires 0 <= i < |samples| => Some(samples[i]));
    }
    out := [];
    for i := 0 to max
      invariant |out| == i
      invariant forall j :: 0 <= j < i ==> out[j] == Thinned(samples, max)[j]
    {
      if max == 1 {
        out := out + [None];
      } else {
        PickInRange(i, |samples| - 1, max - 1);
        out := out + [Some(samples[Pick(i, |samples| - 1, max - 1)])];
      }
    }
  }
}
