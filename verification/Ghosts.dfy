/** Recording a run and playing it back (src/game/Ghost.ts). */
module Ghosts {
  import opened FlightPhysics
  import opened Numbers

  const GHOST_SAMPLE_DT := 0.1
  const GHOST_MAX_SAMPLES: nat := 6000

  datatype Sample = Sample(t: real, x: real, y: real, rotation: real)

  /* ------------------------------------------------------------------ playing */

  /** The cursor after the search for `t` that starts at `c`. */
  function Seek(s: seq<Sample>, c: nat, t: real): (k: nat)
    ensures c <= k && (k <= |s| - 2 || k == c)
    decreases |s| - c
  {
    if c + 2 < |s| && s[c + 1].t < t then Seek(s, c + 1, t) else c
  }

  function Span(s: seq<Sample>, c: nat): (d: real)
    requires c + 1 < |s|
    ensures d > 0.0
  {
    Max(0.0001, s[c + 1].t - s[c].t)
  }

  /** How far between two samples `t` lies, from 0 to 1. */
  function Share(s: seq<Sample>, c: nat, t: real): (u: real)
    requires c + 1 < |s|
    ensures 0.0 <= u <= 1.0
  {
    Max(0.0, Min(1.0, (t - s[c].t) / Span(s, c)))
  }

  function Blend(a: real, b: real, u: real): (v: real) { a + (b - a) * u }

  function At(s: seq<Sample>, c: nat, t: real): (p: Sample)
    requires c + 1 < |s|
  {
    var a, b, u := s[c], s[c + 1], Share(s, c, t);
    Sample(t, Blend(a.x, b.x, u), Blend(a.y, b.y, u), Blend(a.rotation, b.rotation, u))
  }

  /** The ghost looks the same: same place, same rotation. */
  predicate SamePose(p: Sample, q: Sample) {
    p.x == q.x && p.y == q.y && p.rotation == q.rotation
  }

  /** Where a search from sample zero puts the ghost. */
  function Fresh(s: seq<Sample>, t: real): (p: Sample)
    requires |s| >= 2
  {
    At(s, Seek(s, 0, t), t)
  }

  /** Everything the search passed lies before `t`; unless it ran out, the next sample does not. */
  lemma {:induction false} SeekStops(s: seq<Sample>, c: nat, t: real)
    ensures var k := Seek(s, c, t);
      (forall i :: c < i <= k ==> i < |s| && s[i].t < t) && (k + 2 < |s| ==> s[k + 1].t >= t)
    decreases |s| - c
  {
    if c + 2 < |s| && s[c + 1].t < t {
      SeekStops(s, c + 1, t);
    }
  }

  lemma {:induction false} SeekSkips(s: seq<Sample>, c: nat, k: nat, t: real)
    requires c <= k && k + 1 < |s| && forall i :: c < i <= k ==> s[i].t < t
    ensures Seek(s, c, t) == Seek(s, k, t)
    decreases k - c
  {
    if c < k {
      SeekSkips(s, c + 1, k, t);
    }
  }

  /**
   * For a clock that does not go back, the cached cursor is the one a search from zero finds; the
   * samples need no order.
   */
  lemma {:induction false} CachedIsFresh(s: seq<Sample>, earlier: real, t: real)
    requires |s| >= 2 && earlier <= t
    ensures Seek(s, Seek(s, 0, earlier), t) == Seek(s, 0, t)
  {
    SeekStops(s, 0, earlier);
    SeekSkips(s, 0, Seek(s, 0, earlier), t);
  }

  lemma BlendBetween(a: real, b: real, u: real)
    requires 0.0 <= u <= 1.0
    ensures Min(a, b) <= Blend(a, b, u) <= Max(a, b)
  {
    if a <= b {
      Between(b - a, u);
    } else {
      Between(a - b, u);
      assert (b - a) * u == -((a - b) * u);
    }
  }

  /** Between two samples that are not too close the ghost's place and rotation are proportional to the time. */
  lemma ProportionalToTime(s: seq<Sample>, c: nat, t: real)
    requires c + 1 < |s| && s[c].t <= t <= s[c + 1].t && s[c + 1].t - s[c].t >= 0.0001
    ensures var a, b, p := s[c], s[c + 1], At(s, c, t);
      var d := b.t - a.t;
      (p.x - a.x) * d == (b.x - a.x) * (t - a.t) && (p.y - a.y) * d == (b.y - a.y) * (t - a.t) &&
      (p.rotation - a.rotation) * d == (b.rotation - a.rotation) * (t - a.t) && p.t == t
  {
    var a, b, d := s[c], s[c + 1], s[c + 1].t - s[c].t;
    var u := (t - a.t) / d;
    assert u * d == t - a.t;
    ShareOfSpan(t - a.t, d);
    Proportion(b.x - a.x, u, d, t - a.t);
    Proportion(b.y - a.y, u, d, t - a.t);
    Proportion(b.rotation - a.rotation, u, d, t - a.t);
  }

  lemma ShareOfSpan(a: real, d: real)
    requires d > 0.0 && 0.0 <= a <= d
    ensures 0.0 <= a / d <= 1.0
  {
    QuotientGrows(0.0, a, d);
    QuotientGrows(a, d, d);
  }

  lemma Proportion(v: real, u: real, d: real, e: real)
    requires u * d == e
    ensures v * u * d == v * e
  {
    assert v * u * d == v * (u * d);
  }

  /** The ghost is always between its two bracketing samples. */
  lemma BetweenSamples(s: seq<Sample>, c: nat, t: real)
    requires c + 1 < |s|
    ensures var p := At(s, c, t);
      Min(s[c].x, s[c + 1].x) <= p.x <= Max(s[c].x, s[c + 1].x) &&
      Min(s[c].y, s[c + 1].y) <= p.y <= Max(s[c].y, s[c + 1].y)
  {
    BlendBetween(s[c].x, s[c + 1].x, Share(s, c, t));
    BlendBetween(s[c].y, s[c + 1].y, Share(s, c, t));
  }

  predicate TimesAscend(s: seq<Sample>) {
    forall i, j :: 0 <= i < j < |s| ==> s[i].t < s[j].t
  }

  predicate MovesForward(s: seq<Sample>) {
    forall i, j :: 0 <= i < j < |s| ==> s[i].x <= s[j].x
  }

  /** With ascending times the bracket is the right one: the query lies in it, or beyond an end. */
  lemma {:induction false} BracketHoldsQuery(s: seq<Sample>, t: real)
    requires |s| >= 2 && TimesAscend(s)
    ensures var k := Seek(s, 0, t);
      (s[k].t < t || k == 0) && (t <= s[k + 1].t || k == |s| - 2)
  {
    SeekStops(s, 0, t);
  }

  lemma ShareGrows(s: seq<Sample>, c: nat, t: real, later: real)
    requires c + 1 < |s| && t <= later
    ensures Share(s, c, t) <= Share(s, c, later)
  {
    var d := Span(s, c);
    QuotientGrows(t - s[c].t, later - s[c].t, d);
  }

  lemma QuotientGrows(a: real, b: real, d: real)
    requires a <= b && d > 0.0
    ensures a / d <= b / d
  {
  }

  lemma BlendGrows(a: real, b: real, u: real, v: real)
    requires a <= b && u <= v
    ensures Blend(a, b, u) <= Blend(a, b, v)
  {
    Monotone(u, v, b - a);
    assert (b - a) * u == u * (b - a) && (b - a) * v == v * (b - a);
  }

  /** A ghost that flew forward is played forward, whatever its sample times. */
  lemma PlaysForward(s: seq<Sample>, t: real, later: real)
    requires |s| >= 2 && MovesForward(s) && t <= later
    ensures Fresh(s, t).x <= Fresh(s, later).x
  {
    var k, k' := Seek(s, 0, t), Seek(s, 0, later);
    CachedIsFresh(s, t, later);
    BetweenSamples(s, k, t);
    BetweenSamples(s, k', later);
    if k == k' {
      ShareGrows(s, k, t, later);
      BlendGrows(s[k].x, s[k + 1].x, Share(s, k, t), Share(s, k, later));
    } else {
      assert s[k].x <= s[k + 1].x && (k + 1 < k' ==> s[k + 1].x <= s[k'].x) && s[k'].x <= s[k' + 1].x;
    }
  }

  /** Playback passes through every sample that the one before it leaves time for. */
  lemma PassesThroughSamples(s: seq<Sample>, k: nat)
    requires |s| >= 2 && TimesAscend(s) && k < |s|
    requires k > 0 ==> s[k].t - s[k - 1].t >= 0.0001
    ensures SamePose(Fresh(s, s[k].t), s[k])
  {
    var t := s[k].t;
    SeekStops(s, 0, t);
    var c := Seek(s, 0, t);
    if k == 0 {
      assert c == 0;
      assert Share(s, 0, t) == 0.0;
    } else {
      assert c == k - 1;
      assert t - s[c].t == Span(s, c);
      FullShare(t - s[c].t, Span(s, c));
      assert Share(s, c, t) == 1.0;
    }
  }

  /** The ghost stands at its last sample exactly once the last pair's span is over, or if that pair does not move. */
  lemma HoldsTheLastSample(s: seq<Sample>, t: real)
    requires |s| >= 2 && TimesAscend(s) && t > s[|s| - 2].t
    ensures SamePose(Fresh(s, t), s[|s| - 1]) <==>
            t >= s[|s| - 2].t + Span(s, |s| - 2) || SamePose(s[|s| - 2], s[|s| - 1])
  {
    SeekStops(s, 0, t);
    var c := |s| - 2;
    assert Seek(s, 0, t) == c;
    FullShare(t - s[c].t, Span(s, c));
    StrictBlend(s[c].x, s[c + 1].x, Share(s, c, t));
    StrictBlend(s[c].y, s[c + 1].y, Share(s, c, t));
    StrictBlend(s[c].rotation, s[c + 1].rotation, Share(s, c, t));
  }

  lemma FullShare(a: real, d: real)
    requires d > 0.0
    ensures Max(0.0, Min(1.0, a / d)) == 1.0 <==> a >= d
  {
    assert a / d * d == a;
    if a >= d {
      QuotientGrows(d, a, d);
    } else if a / d >= 1.0 {
      Monotone(1.0, a / d, d);
    }
  }

  lemma StrictBlend(a: real, b: real, u: real)
    requires 0.0 <= u <= 1.0
    ensures Blend(a, b, u) == b <==> u == 1.0 || a == b
  {
    if a != b && u < 1.0 {
      Positive(Abs(b - a), 1.0 - u);
      assert (b - a) * (1.0 - u) == (b - a) - (b - a) * u;
    }
  }

  /** Once the last sample's time is past, and the last pair is not too close, the ghost stands at it. */
  lemma EndsAtTheLastSample(s: seq<Sample>, t: real)
    requires |s| >= 2 && TimesAscend(s) && t >= s[|s| - 1].t
    requires s[|s| - 1].t - s[|s| - 2].t >= 0.0001
    ensures SamePose(Fresh(s, t), s[|s| - 1])
  {
    HoldsTheLastSample(s, t);
  }

  /* ------------------------------------------------- a whole playback by cursor */

  function Play(s: seq<Sample>, c: nat, ts: seq<real>): (ps: seq<Sample>)
    requires c + 1 < |s|
    ensures |ps| == |ts|
    decreases |ts|
  {
    if ts == [] then [] else [At(s, Seek(s, c, ts[0]), ts[0])] + Play(s, Seek(s, c, ts[0]), ts[1..])
  }

  predicate ClockRuns(ts: seq<real>) {
    forall i, j :: 0 <= i < j < |ts| ==> ts[i] <= ts[j]
  }

  lemma {:induction false} PlayFrom(s: seq<Sample>, earlier: real, ts: seq<real>)
    requires |s| >= 2 && ClockRuns(ts) && (ts != [] ==> earlier <= ts[0])
    ensures var ps := Play(s, Seek(s, 0, earlier), ts);
      forall i :: 0 <= i < |ts| ==> ps[i] == Fresh(s, ts[i])
    decreases |ts|
  {
    if ts != [] {
      CachedIsFresh(s, earlier, ts[0]);
      PlayFrom(s, ts[0], ts[1..]);
    }
  }

  /**
   * Under a clock that does not go back, a whole playback equals fresh searches, and moves forward
   * if the flight did.
   */
  lemma {:induction false} PlaybackIsFresh(s: seq<Sample>, ts: seq<real>)
    requires |s| >= 2 && ClockRuns(ts)
    ensures var ps := Play(s, 0, ts);
      (forall i :: 0 <= i < |ts| ==> ps[i] == Fresh(s, ts[i])) &&
      (MovesForward(s) ==> forall i, j :: 0 <= i < j < |ts| ==> ps[i].x <= ps[j].x)
  {
    if ts != [] {
      PlayFrom(s, ts[0], ts[1..]);
      if MovesForward(s) {
        forall i, j | 0 <= i < j < |ts| ensures Fresh(s, ts[i]).x <= Fresh(s, ts[j]).x {
          PlaysForward(s, ts[i], ts[j]);
        }
      }
    }
  }

  /* ---------------------------------------------------------------- recording */

  datatype Recording = Recording(samples: seq<Sample>, acc: real)

  /** `Math.round(v * scale) / scale`. */
  function RoundTo(v: real, scale: real): (r: real)
    requires scale > 0.0
  {
    Round(v * scale) as real / scale
  }

  function Rounded(t: real, x: real, y: real, rotation: real): (p: Sample) {
    Sample(RoundTo(t, 100.0), RoundTo(x, 10.0), RoundTo(y, 10.0), RoundTo(rotation, 100.0))
  }

  /** A sample is the bird's, to the nearest hundredth of a second and of a radian, and the nearest tenth of a metre. */
  lemma RecordedNear(t: real, x: real, y: real, rotation: real)
    ensures var p := Rounded(t, x, y, rotation);
      t - 0.005 <= p.t <= t + 0.005 && x - 0.05 <= p.x <= x + 0.05 && y - 0.05 <= p.y <= y + 0.05 &&
      rotation - 0.005 <= p.rotation <= rotation + 0.005
    ensures var p := Rounded(t, x, y, rotation);
      p.t * 100.0 == Round(t * 100.0) as real && p.x * 10.0 == Round(x * 10.0) as real &&
      p.y * 10.0 == Round(y * 10.0) as real && p.rotation * 100.0 == Round(rotation * 100.0) as real
  {
  }

  function Record(r: Recording, dt: real, t: real, x: real, y: real, rotation: real): (r': Recording) {
    if r.acc + dt < GHOST_SAMPLE_DT then r.(acc := r.acc + dt)
    else if |r.samples| >= GHOST_MAX_SAMPLES then r.(acc := 0.0)
    else Recording(r.samples + [Rounded(t, x, y, rotation)], 0.0)
  }

  /** A sample is taken once a tenth of a second has gone by, up to 6000 of them, and the wait begins again. */
  lemma RecordLaw(r: Recording, dt: real, t: real, x: real, y: real, rotation: real)
    ensures var r' := Record(r, dt, t, x, y, rotation);
      if r.acc + dt < 0.1 then r' == Recording(r.samples, r.acc + dt)
      else r' == Recording(r.samples + if |r.samples| < 6000 then [Rounded(t, x, y, rotation)] else [], 0.0)
  {
  }

  /** One call of the recorder: the step it follows, and where the bird is then. */
  datatype Call = Call(dt: real, x: real, y: real, rotation: real)

  /** Records a run whose clock advances by each step. */
  function RecordRun(r: Recording, t: real, cs: seq<Call>): (r': Recording)
    decreases |cs|
  {
    if cs == [] then r
    else
      var c := cs[0];
      RecordRun(Record(r, c.dt, t + c.dt, c.x, c.y, c.rotation), t + c.dt, cs[1..])
  }

  /** Steps do not go back, and neither does the bird. */
  predicate Forward(x: real, cs: seq<Call>) {
    && (cs != [] ==> x <= cs[0].x)
    && (forall i :: 0 <= i < |cs| ==> cs[i].dt >= 0.0)
    && (forall i :: 0 < i < |cs| ==> cs[i - 1].x <= cs[i].x)
  }

  const MIN_GAP := 0.09

  predicate Gapped(s: seq<Sample>) {
    forall i, j :: 0 <= i < j < |s| ==> s[i].t + MIN_GAP <= s[j].t
  }

  /** The clock is at `t` and the bird at `x`; the last sample was taken at clock `raw` and place `at`, behind both. */
  predicate Behind(r: Recording, t: real, x: real, raw: real, at: real) {
    r.samples != [] ==>
      raw + r.acc <= t && at <= x &&
      r.samples[|r.samples| - 1].t == RoundTo(raw, 100.0) && r.samples[|r.samples| - 1].x == RoundTo(at, 10.0)
  }

  predicate WellRecorded(r: Recording) {
    Gapped(r.samples) && MovesForward(r.samples) && |r.samples| <= GHOST_MAX_SAMPLES && r.acc < GHOST_SAMPLE_DT
  }

  lemma RoundToMonotone(v: real, w: real, scale: real)
    requires scale > 0.0 && v <= w
    ensures RoundTo(v, scale) <= RoundTo(w, scale)
  {
    Monotone(v, w, scale);
    RoundKeepsOrder(v * scale, w * scale);
    QuotientGrows(Round(v * scale) as real, Round(w * scale) as real, scale);
  }

  /** A tenth of a second apart on the clock is at least nine hundredths apart on the record. */
  lemma RoundedGap(v: real, w: real)
    requires v + GHOST_SAMPLE_DT <= w
    ensures RoundTo(v, 100.0) + MIN_GAP <= RoundTo(w, 100.0)
  {
  }

  lemma AppendGapped(s: seq<Sample>, p: Sample)
    requires Gapped(s) && MovesForward(s)
    requires s != [] ==> s[|s| - 1].t + MIN_GAP <= p.t && s[|s| - 1].x <= p.x
    ensures Gapped(s + [p]) && MovesForward(s + [p])
  {
    forall i | 0 <= i < |s| ensures s[i].t + MIN_GAP <= p.t && s[i].x <= p.x {
      if i < |s| - 1 {
        assert s[i].t + MIN_GAP <= s[|s| - 1].t;
      }
    }
  }

  lemma RecordStep(r: Recording, t: real, x: real, c: Call, raw: real, at: real)
    requires WellRecorded(r) && Behind(r, t, x, raw, at) && c.dt >= 0.0 && x <= c.x
    ensures var r' := Record(r, c.dt, t + c.dt, c.x, c.y, c.rotation);
      var taken := |r'.samples| > |r.samples|;
      WellRecorded(r') && r.samples <= r'.samples &&
      Behind(r', t + c.dt, c.x, if taken then t + c.dt else raw, if taken then c.x else at)
  {
    if r.acc + c.dt >= GHOST_SAMPLE_DT && |r.samples| < GHOST_MAX_SAMPLES {
      if r.samples != [] {
        RoundedGap(raw, t + c.dt);
        RoundToMonotone(at, c.x, 10.0);
      }
      AppendGapped(r.samples, Rounded(t + c.dt, c.x, c.y, c.rotation));
    }
  }

  /**
   * A recorded run has its samples at least nine hundredths of a second apart, never moving back,
   * and no more than the cap.
   */
  lemma {:induction false} RecordsForward(r: Recording, t: real, x: real, cs: seq<Call>, raw: real, at: real)
    requires WellRecorded(r) && Behind(r, t, x, raw, at) && Forward(x, cs)
    ensures WellRecorded(RecordRun(r, t, cs)) && r.samples <= RecordRun(r, t, cs).samples
    decreases |cs|
  {
    if cs != [] {
      var c := cs[0];
      RecordStep(r, t, x, c, raw, at);
      var r' := Record(r, c.dt, t + c.dt, c.x, c.y, c.rotation);
      var taken := |r'.samples| > |r.samples|;
      RecordsForward(r', t + c.dt, c.x, cs[1..], if taken then t + c.dt else raw, if taken then c.x else at);
    }
  }

  /** Recorded then played: the ghost never moves back, and stands at the last sample from its time on. */
  lemma {:induction false} RecordThenPlay(t: real, x: real, cs: seq<Call>, ts: seq<real>)
    requires Forward(x, cs) && ClockRuns(ts)
    requires |RecordRun(Recording([], 0.0), t, cs).samples| >= 2
    ensures var s := RecordRun(Recording([], 0.0), t, cs).samples;
      var ps := Play(s, 0, ts);
      (forall i, j :: 0 <= i < j < |ts| ==> ps[i].x <= ps[j].x) &&
      (forall i :: 0 <= i < |ts| && ts[i] >= s[|s| - 1].t ==> SamePose(ps[i], s[|s| - 1]))
  {
    RecordsForward(Recording([], 0.0), t, x, cs, t, x);
    var s := RecordRun(Recording([], 0.0), t, cs).samples;
    PlaybackIsFresh(s, ts);
    GappedAscends(s);
    HoldsAtTheEnd(s, ts);
  }

  lemma HoldsAtTheEnd(s: seq<Sample>, ts: seq<real>)
    requires |s| >= 2 && TimesAscend(s) && s[|s| - 1].t - s[|s| - 2].t >= 0.0001
    ensures forall i :: 0 <= i < |ts| && ts[i] >= s[|s| - 1].t ==> SamePose(Fresh(s, ts[i]), s[|s| - 1])
  {
    forall i | 0 <= i < |ts| && ts[i] >= s[|s| - 1].t ensures SamePose(Fresh(s, ts[i]), s[|s| - 1]) {
      EndsAtTheLastSample(s, ts[i]);
    }
  }

  lemma GappedAscends(s: seq<Sample>)
    requires Gapped(s)
    ensures TimesAscend(s)
    ensures |s| >= 2 ==> s[|s| - 1].t - s[|s| - 2].t >= 0.0001
  {
  }
}
