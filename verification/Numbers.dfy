/** JavaScript numbers as reals. */
module Numbers {
  import opened Text

  /** None stands for NaN and the infinities. */
  type Num = Option<real>

  /** Math.round. */
  function Round(v: real): (n: int) {
    (v + 0.5).Floor
  }

  /** The nearest whole number, the upper of two. */
  lemma RoundIsNearest(v: real)
    ensures v - 0.5 < Round(v) as real <= v + 0.5
  {
  }

  lemma RoundKeepsOrder(a: real, b: real)
    requires a <= b
    ensures Round(a) <= Round(b)
  {
    assert Round(a) as real <= a + 0.5 && b + 0.5 < (Round(b) + 1) as real;
  }
}
