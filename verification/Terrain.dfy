/**
 * What a flight step reads of the ground (src/game/TerrainSystem.ts), and the geometry of
 * velocities along it.
 */
module Terrain {
  import opened FlightPhysics
  import opened Text

  const BIRD_RADIUS := 0.9

  const PAD_RADIUS := 3.4
  const ISLAND_PERIOD := 1100.0

  /** Heights, ocean gaps and the centres of each island's blooms; `hyp` is Math.hypot. */
  datatype World = World(
    height: real -> real,
    ocean: real -> bool,
    blooms: int -> seq<real>,
    hyp: (real, real) -> real)

  /** `hyp` is the length of the vector it is given; nothing is asked of the ground itself. */
  ghost predicate Measures(w: World) {
    forall a: real, b: real :: IsLength(w.hyp(a, b), a, b)
  }

  ghost predicate IsLength(h: real, a: real, b: real) {
    h >= 0.0 && h * h == a * a + b * b
  }

  function Surface(w: World, x: real): (y: real) {
    w.height(x) + BIRD_RADIUS
  }

  function SlopeAt(w: World, x: real): (s: real) {
    (w.height(x + 0.45) - w.height(x - 0.45)) / 0.9
  }

  function TangentX(w: World, x: real): (t: real)
    requires Measures(w)
    ensures 0.0 < t <= 1.0
  {
    var len := w.hyp(1.0, SlopeAt(w, x));
    LengthAtLeastOne(len, SlopeAt(w, x));
    UnitFraction(len);
    1.0 / len
  }

  function TangentY(w: World, x: real): (t: real)
    requires Measures(w)
  {
    SlopeAt(w, x) * TangentX(w, x)
  }

  /** Signed path curvature: the power 1.5 of 1 + slope squared is the cube of its root. */
  function CurvatureAt(w: World, x: real): (c: real)
    requires Measures(w)
  {
    var bend := (w.height(x - 1.1) - 2.0 * w.height(x) + w.height(x + 1.1)) / (1.1 * 1.1);
    var t := TangentX(w, x);
    -bend * (t * t * t)
  }

  /* ------------------------------------------------------------------ blooms */

  /** `islandIndex`. */
  function Island(x: real): (i: int) {
    if (x / ISLAND_PERIOD).Floor < 0 then 0 else (x / ISLAND_PERIOD).Floor
  }

  /** Islands are 1100 m long from the origin on, and everything before it belongs to the first. */
  lemma IslandLaw(x: real)
    ensures x < 1100.0 ==> Island(x) == 0
    ensures x >= 0.0 ==> 1100.0 * Island(x) as real <= x < 1100.0 * (Island(x) + 1) as real
  {
    assert x / 1100.0 * 1100.0 == x;
  }

  /** The first of these centres within a bloom's radius. */
  function FirstBloom(centres: seq<real>, x: real): (p: Option<real>)
    ensures p.Some? ==> p.value in centres && Abs(p.value - x) <= PAD_RADIUS
    ensures p.None? <==> forall i :: 0 <= i < |centres| ==> Abs(centres[i] - x) > PAD_RADIUS
  {
    if centres == [] then None
    else if Abs(centres[0] - x) <= PAD_RADIUS then Some(centres[0])
    else FirstBloom(centres[1..], x)
  }

  /** The centre of the bloom that answers at `x`. */
  function PadAt(w: World, x: real): (p: Option<real>) {
    FirstBloom(w.blooms(Island(x)), x)
  }

  /** A bloom sits on the hill: its height is the ground's at its centre. */
  function PadHeight(w: World, p: real): (y: real) {
    w.height(p)
  }

  /** Where the generator may plant: past the shelf, on land, off steep faces. */
  predicate Plantable(w: World, p: real) {
    p >= 260.0 && !w.ocean(p) && Abs(SlopeAt(w, p)) < 0.42
  }

  ghost predicate Planted(w: World) {
    forall island: int, p: real :: p in w.blooms(island) ==> Plantable(w, p)
  }

  /** The scan over one island's blooms. */
  method BouncePadAt(w: World, x: real) returns (p: Option<real>)
    ensures p == PadAt(w, x)
  {
    var centres := w.blooms(Island(x));
    var i := 0;
    assert centres[0..] == centres;
    while i < |centres|
      invariant i <= |centres|
      invariant FirstBloom(centres[i..], x) == PadAt(w, x)
    {
      if Abs(centres[i] - x) <= PAD_RADIUS {
        return Some(centres[i]);
      }
      assert centres[i..][1..] == centres[i + 1..];
      i := i + 1;
    }
    p := None;
  }

  /* ------------------------------------------------------- tangents and speeds */

  lemma LengthAtLeastOne(h: real, b: real)
    requires IsLength(h, 1.0, b)
    ensures h >= 1.0
  {
    NonNegativeSquare(b);
    if h < 1.0 {
      Between(h, h);
    }
  }

  lemma UnitFraction(h: real)
    requires h >= 1.0
    ensures 0.0 < 1.0 / h <= 1.0
  {
  }

  /** The tangent is a unit vector that points forward. */
  lemma UnitTangent(w: World, x: real)
    requires Measures(w)
    ensures TangentX(w, x) * TangentX(w, x) + TangentY(w, x) * TangentY(w, x) == 1.0
  {
    var s := SlopeAt(w, x);
    var h := w.hyp(1.0, s);
    assert IsLength(h, 1.0, s);
    UnitVector(h, s, TangentX(w, x));
  }

  lemma UnitVector(h: real, s: real, t: real)
    requires h * h == 1.0 + s * s && t * h == 1.0
    ensures t * t + (s * t) * (s * t) == 1.0
  {
    calc {
      t * t + (s * t) * (s * t);
      (1.0 + s * s) * (t * t);
      (h * h) * (t * t);
      (t * h) * (t * h);
    }
  }

  /** A velocity of size `v` along the ground has speed `v`. */
  lemma SpeedAlong(w: World, x: real, v: real, p: real, q: real)
    requires Measures(w) && v >= 0.0
    requires p == v * TangentX(w, x) && q == v * TangentY(w, x)
    ensures w.hyp(p, q) == v
  {
    UnitTangent(w, x);
    var a, b := TangentX(w, x), TangentY(w, x);
    UnitSpeed(w, v, a, b);
    assert p == v * a && q == v * b;
  }

  lemma UnitSpeed(w: World, v: real, a: real, b: real)
    requires Measures(w) && v >= 0.0 && a * a + b * b == 1.0
    ensures w.hyp(v * a, v * b) == v
  {
    var h := w.hyp(v * a, v * b);
    assert IsLength(h, v * a, v * b);
    ScaledSquares(v, a, b);
    SquareEqual(h, v);
  }

  lemma ScaledSquares(v: real, a: real, b: real)
    ensures (v * a) * (v * a) + (v * b) * (v * b) == (v * v) * (a * a + b * b)
  {
  }

  /** Shrinking both parts of a velocity by `k` shrinks the speed by `k`. */
  lemma SpeedScales(w: World, k: real, a: real, b: real, p: real, q: real)
    requires Measures(w) && k >= 0.0 && p == a * k && q == b * k
    ensures w.hyp(p, q) == w.hyp(a, b) * k
  {
    var h, g := w.hyp(a, b), w.hyp(p, q);
    assert IsLength(h, a, b) && IsLength(g, p, q);
    ScaledSquares(k, a, b);
    assert g * g == (h * k) * (h * k);
    NonNegative(h, k);
    SquareEqual(g, h * k);
  }

  /** A part taken off one side of a velocity never raises the speed. */
  lemma SlowerSide(w: World, a: real, b: real, c: real)
    requires Measures(w)
    requires b == c || 0.0 <= c <= b
    ensures w.hyp(a, c) <= w.hyp(a, b)
  {
    var h, g := w.hyp(a, b), w.hyp(a, c);
    assert IsLength(h, a, b) && IsLength(g, a, c);
    if b != c {
      Monotone(c, b, c);
      Monotone(c, b, b);
    }
    SquareOrder(g, h);
  }

  /** The component of a velocity along the ground is no larger than the velocity. */
  lemma ComponentAtMost(w: World, x: real, a: real, b: real)
    requires Measures(w)
    ensures a * TangentX(w, x) + b * TangentY(w, x) <= w.hyp(a, b)
  {
    UnitTangent(w, x);
    var p, q := TangentX(w, x), TangentY(w, x);
    var h := w.hyp(a, b);
    assert IsLength(h, a, b);
    Projection(a, b, p, q);
    var along := a * p + b * q;
    if along > 0.0 {
      SquareOrder(along, h);
    }
  }

  lemma Projection(a: real, b: real, p: real, q: real)
    requires p * p + q * q == 1.0
    ensures (a * p + b * q) * (a * p + b * q) <= a * a + b * b
  {
    calc {
      a * a + b * b;
      (a * a + b * b) * (p * p + q * q);
      (a * p + b * q) * (a * p + b * q) + (a * q - b * p) * (a * q - b * p);
    }
    NonNegativeSquare(a * q - b * p);
  }

  lemma NonNegativeSquare(a: real)
    ensures a * a >= 0.0
  {
  }
}
