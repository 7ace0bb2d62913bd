/** The pools of one world and the frame that spawns and sweeps them (src/game/Collectibles.ts). */
module Collectibles {
  import opened FlightPhysics
  import opened SlotPools
  import Cells = SpawnCells

  /* ----------------------------------------------------------------- the rules */

  const MAGNET_RADIUS := 15.0
  const MAGNET_RADIUS_NORMAL := 1.7
  const RING_RADIUS := 4.4

  /** Coins are drawn to the bird from the distance they had, and taken at that distance. */
  function CoinRules(x: real, y: real, dt: real, magnet: bool, scale: real, hyp: (real, real) -> real): (u: Rules) {
    var radius := if magnet then MAGNET_RADIUS * scale else MAGNET_RADIUS_NORMAL;
    var pull := if magnet then 52.0 * scale else 18.0;
    Rules(
      (e: Entry) => e.x < x - 30.0,
      (e: Entry) =>
        var d := hyp(x - e.x, y - e.y);
        if d < radius && d > 0.01 then (e.x + (x - e.x) / d * pull * dt, e.y + (y - e.y) / d * pull * dt)
        else (e.x, e.y),
      (e: Entry) => hyp(x - e.x, y - e.y) < Reach(e.gem))
  }

  function RingRules(x: real, y: real): (u: Rules) {
    Rules(
      (e: Entry) => e.x < x - 40.0,
      (e: Entry) => (e.x, e.y),
      (e: Entry) => Abs(x - e.x) < 2.2 && Abs(y - e.y) < RING_RADIUS - 0.4)
  }

  /** A balloon drifts first and is popped where it drifted to; `drift` gives each placement's speed. */
  function BalloonRules(x: real, y: real, dt: real, drift: nat -> real, hyp: (real, real) -> real): (u: Rules) {
    Rules(
      (e: Entry) => e.x < x - 40.0,
      (e: Entry) => (e.x + drift(e.stamp) * dt, e.y),
      (e: Entry) => hyp(x - (e.x + drift(e.stamp) * dt), y - e.y) < 4.4)
  }

  /** `hyp` is the length of the vector it is given. */
  ghost predicate Measures(hyp: (real, real) -> real) {
    forall a: real, b: real :: hyp(a, b) >= Abs(a)
  }

  function Reach(gem: bool): (d: real) { if gem then 2.4 else 1.7 }

  /** Every coin within reach is taken at once, magnet or not: none is dropped as left behind instead. */
  lemma CoinTakenExactlyInReach(
      x: real, y: real, dt: real, magnet: bool, scale: real, hyp: (real, real) -> real, e: Entry)
    requires Measures(hyp)
    ensures FateOf(CoinRules(x, y, dt, magnet, scale, hyp), e) == Hit <==>
            !e.taken && hyp(x - e.x, y - e.y) < Reach(e.gem)
  {
    assert hyp(x - e.x, y - e.y) >= Abs(x - e.x);
  }

  /** Where the bird is at one frame. */
  datatype Spot = Spot(x: real, y: real)

  /** What a frame with the bird at `p` does to a ring. */
  function RingFate(p: Spot, e: Entry): (f: Fate) {
    FateOf(RingRules(p.x, p.y), e)
  }

  /** The bird goes forward by less than `d` from frame to frame. */
  predicate ShortSteps(ps: seq<Spot>, d: real) {
    forall i :: 0 < i < |ps| ==> ps[i - 1].x <= ps[i].x < ps[i - 1].x + d
  }

  /** The path comes from before the ring's plane to behind it, and is inside the ring while near the plane. */
  predicate GoesThrough(ps: seq<Spot>, e: Entry) {
    && ps != [] && ps[0].x < e.x <= ps[|ps| - 1].x
    && (forall i :: 0 <= i < |ps| && Abs(ps[i].x - e.x) < 2.2 ==> Abs(ps[i].y - e.y) < RING_RADIUS - 0.4)
  }

  predicate Threaded(ps: seq<Spot>, e: Entry, i: nat)
    requires i < |ps|
  {
    RingFate(ps[i], e) == Hit && forall j :: 0 <= j < i ==> RingFate(ps[j], e) == Stays
  }

  /** A ring flown through in steps shorter than 4.4 m is threaded: some frame hits it, and none before drops it. */
  lemma {:induction false} RingIsNeverSkipped(ps: seq<Spot>, e: Entry)
    requires !e.taken && GoesThrough(ps, e) && ShortSteps(ps, 4.4)
    ensures exists i :: 0 <= i < |ps| && Threaded(ps, e, i)
  {
    var k := FirstNear(ps, e.x - 2.2, 0);
    assert ps[k].x < e.x + 2.2;
    assert Threaded(ps, e, k);
  }

  /** The first frame past `x`. */
  lemma {:induction false} FirstNear(ps: seq<Spot>, x: real, from: nat) returns (k: nat)
    requires ShortSteps(ps, 4.4) && from < |ps| && ps[from].x < x + 4.4 && x < ps[|ps| - 1].x
    requires forall j :: 0 <= j < from ==> ps[j].x <= x
    ensures from <= k < |ps| && x < ps[k].x < x + 4.4 && forall j :: 0 <= j < k ==> ps[j].x <= x
    decreases |ps| - from
  {
    if ps[from].x > x {
      k := from;
    } else {
      assert ps[from].x <= ps[from + 1].x < ps[from].x + 4.4;
      k := FirstNear(ps, x, from + 1);
    }
  }

  /** Any longer step can carry the bird through a ring between two frames. */
  lemma RingStepIsSharp(d: real, e: Entry)
    requires d > 4.4 && !e.taken
    ensures var ps := [Spot(e.x - 2.2, e.y), Spot(e.x + 2.2, e.y)];
      GoesThrough(ps, e) && ShortSteps(ps, d) && forall i :: 0 <= i < |ps| ==> RingFate(ps[i], e) == Stays
  {
  }

  /* ------------------------------------------------------------------ balloons */

  /** Balloons have no mesh slots: a hard cap on the active ones bounds the pool. */
  function PlaceCapped(cap: nat, p: Pool, x: real, y: real): (r: Pool) {
    if |p.active| >= cap then p
    else
      var k := FindIdle(p.entries, false);
      if k < |p.entries| then Activate(p, k, x, y) else Activate(Grow(p, false), |p.entries|, x, y)
  }

  /** Balloons are all of one kind, and numbered as they are made. */
  predicate Balloons(p: Pool) {
    (forall k :: 0 <= k < |p.entries| ==> !p.entries[k].gem) && p.coinCursor == |p.entries|
  }

  function Members(s: seq<nat>): (r: set<nat>) { set k | k in s }

  function Naturals(n: nat): (r: set<nat>)
    ensures forall k: nat :: k in r <==> k < n
  {
    if n == 0 then {} else Naturals(n - 1) + {n - 1}
  }

  lemma DistinctFits(s: seq<nat>, n: nat)
    requires Distinct(s) && forall i :: 0 <= i < |s| ==> s[i] < n
    ensures |s| <= n
  {
    DistinctMembers(s);
    SmallSet(Members(s), n);
  }

  lemma {:induction false} DistinctMembers(s: seq<nat>)
    requires Distinct(s)
    ensures |Members(s)| == |s|
  {
    if s != [] {
      var rest, last := s[..|s| - 1], s[|s| - 1];
      DistinctMembers(rest);
      assert s == rest + [last] && last !in rest;
      assert Members(s) == Members(rest) + {last};
    }
  }

  lemma CoverFits(s: seq<nat>, n: nat)
    requires Distinct(s) && forall k :: 0 <= k < n ==> k in s
    ensures n <= |s|
  {
    DistinctMembers(s);
    NaturalsSize(n);
    assert Naturals(n) <= Members(s);
    SubsetSize(Naturals(n), Members(s));
  }

  lemma {:induction false} NaturalsSize(n: nat)
    ensures |Naturals(n)| == n
  {
    if n > 0 {
      NaturalsSize(n - 1);
      assert n - 1 !in Naturals(n - 1);
      assert Naturals(n) == Naturals(n - 1) + {n - 1};
    }
  }

  lemma {:induction false} SubsetSize(a: set<nat>, b: set<nat>)
    requires a <= b
    ensures |a| <= |b|
  {
    if a != {} {
      var x :| x in a;
      SubsetSize(a - {x}, b - {x});
    }
  }

  /** The cap on active balloons also bounds the balloons ever made. */
  lemma PlaceCappedKeeps(cap: nat, p: Pool, x: real, y: real)
    requires Sound(Caps(cap, 0), p) && Balloons(p)
    ensures var r := PlaceCapped(cap, p, x, y);
      Sound(Caps(cap, 0), r) && Balloons(r) && |r.active| <= |r.entries| <= cap
  {
    var c := Caps(cap, 0);
    var k := FindIdle(p.entries, false);
    PoolFits(c, p);
    if |p.active| < cap {
      if k < |p.entries| {
        ActivateKeeps(c, p, k, x, y);
      } else {
        forall j | 0 <= j < |p.entries| ensures j in p.active {
          assert !Idle(p.entries[j], false);
        }
        CoverFits(p.active, |p.entries|);
        GrowKeeps(c, p, false);
        ActivateKeeps(c, Grow(p, false), |p.entries|, x, y);
      }
      PoolFits(c, PlaceCapped(cap, p, x, y));
    }
  }

  lemma PoolFits(c: Caps, p: Pool)
    requires Sound(c, p) && Balloons(p)
    ensures |p.active| <= |p.entries| <= c.coins
  {
    DistinctFits(p.active, |p.entries|);
    if |p.entries| > 0 {
      SlotsFit(c, p);
    }
  }

  lemma SlotsFit(c: Caps, p: Pool)
    requires SlotsDistinct(p.entries) && SlotsInRange(c, p) && Balloons(p)
    ensures |p.entries| <= c.coins
  {
    var slots := seq(|p.entries|, i requires 0 <= i < |p.entries| => p.entries[i].slot);
    DistinctFits(slots, c.coins);
  }

  /* ------------------------------------------------------------------ the world */

  /** What a cell puts into the world. */
  datatype Item =
    | CoinAt(x: real, y: real, gem: bool)
    | RingAt(x: real, y: real)
    | BalloonAt(x: real, y: real)

  /** Mesh capacities and the balloon cap of a quality tier. */
  datatype Tier = Tier(coins: Caps, rings: Caps, balloons: nat)

  datatype Field = Field(coins: Pool, rings: Pool, balloons: Pool)

  function PlaceItem(t: Tier, f: Field, item: Item): (r: Field) {
    match item
    case CoinAt(x, y, gem) => f.(coins := Place(t.coins, f.coins, x, y, gem))
    case RingAt(x, y) => f.(rings := Place(t.rings, f.rings, x, y, false))
    case BalloonAt(x, y) => f.(balloons := PlaceCapped(t.balloons, f.balloons, x, y))
  }

  function PlaceItems(t: Tier, f: Field, items: seq<Item>): (r: Field)
    decreases |items|
  {
    if items == [] then f else PlaceItems(t, PlaceItem(t, f, items[0]), items[1..])
  }

  predicate FieldSound(t: Tier, f: Field) {
    && Sound(t.coins, f.coins)
    && Sound(t.rings, f.rings)
    && Sound(Caps(t.balloons, 0), f.balloons) && Balloons(f.balloons)
  }

  lemma {:induction false} PlaceItemsKeep(t: Tier, f: Field, items: seq<Item>)
    requires FieldSound(t, f)
    ensures FieldSound(t, PlaceItems(t, f, items))
    decreases |items|
  {
    if items != [] {
      match items[0] {
        case CoinAt(x, y, gem) => PlaceKeeps(t.coins, f.coins, x, y, gem);
        case RingAt(x, y) => PlaceKeeps(t.rings, f.rings, x, y, false);
        case BalloonAt(x, y) => PlaceCappedKeeps(t.balloons, f.balloons, x, y);
      }
      PlaceItemsKeep(t, PlaceItem(t, f, items[0]), items[1..]);
    }
  }

  lemma {:induction false} SweepKeepsBalloons(u: Rules, p: Pool, n: nat)
    requires InRange(p) && Distinct(p.active) && n <= |p.active| && Balloons(p)
    ensures Balloons(Sweep(u, p, n))
    decreases n
  {
    if n > 0 {
      SweepOneRange(u, p, n - 1);
      AfterKeepsIdentity(u, p.entries[p.active[n - 1]]);
      SweepKeepsBalloons(u, SweepOne(u, p, n - 1), n - 1);
    }
  }

  lemma ResetKeepsBalloons(p: Pool)
    requires InRange(p) && Balloons(p)
    ensures Balloons(Reset(p))
  {
    forall k | 0 <= k < |p.entries| ensures !Reset(p).entries[k].gem {
      TakeAllAt(p.entries, p.active, |p.active|, k);
    }
  }

  /** The contents of cells first to end, each in turn; `content` stands for terrain and seed. */
  function FillCells(t: Tier, f: Field, content: int -> seq<Item>, ks: seq<int>): (r: Field)
    decreases |ks|
  {
    if ks == [] then f else FillCells(t, PlaceItems(t, f, content(ks[0])), content, ks[1..])
  }

  lemma {:induction false} FillCellsKeep(t: Tier, f: Field, content: int -> seq<Item>, ks: seq<int>)
    requires FieldSound(t, f)
    ensures FieldSound(t, FillCells(t, f, content, ks))
    decreases |ks|
  {
    if ks != [] {
      PlaceItemsKeep(t, f, content(ks[0]));
      FillCellsKeep(t, PlaceItems(t, f, content(ks[0])), content, ks[1..]);
    }
  }

  /** One frame's cells: those the walk adds, and the opening line with the first of them. */
  function Spawn(t: Tier, f: Field, w: Cells.Walk, x: real, content: int -> seq<Item>, opening: seq<Item>): (r: Field) {
    var first, end := Cells.CellAt(Cells.From(w.until, x)), Cells.CellAt(x + Cells.AHEAD);
    if end * Cells.SPAWN_CELL <= w.until then f
    else
      var filled := FillCells(t, f, content, Cells.Cells(first, end));
      if w.until < 0 then PlaceItems(t, filled, opening) else filled
  }

  /**
   * A frame places the contents of exactly the cells its walk adds, in turn, and the opening line after
   * them when the walk lays it.
   */
  lemma {:induction false} SpawnsWhatIsVisited(
      t: Tier, f: Field, w: Cells.Walk, x: real, content: int -> seq<Item>, opening: seq<Item>)
    ensures var after := Cells.Update(w, x);
      var filled := FillCells(t, f, content, after.visited[|w.visited|..]);
      w.visited <= after.visited &&
      Spawn(t, f, w, x, content, opening) ==
      if after.openings > w.openings then PlaceItems(t, filled, opening) else filled
  {
    var after := Cells.Update(w, x);
    var ahead := Cells.CellAt(x + Cells.AHEAD) * Cells.SPAWN_CELL;
    if ahead > w.until {
      var more := Cells.Cells(Cells.CellAt(Cells.From(w.until, x)), Cells.CellAt(x + Cells.AHEAD));
      assert (w.visited + more)[|w.visited|..] == more;
    } else {
      assert w.visited[|w.visited|..] == [];
    }
  }

  lemma SpawnKeeps(t: Tier, f: Field, w: Cells.Walk, x: real, content: int -> seq<Item>, opening: seq<Item>)
    requires FieldSound(t, f)
    ensures FieldSound(t, Spawn(t, f, w, x, content, opening))
  {
    var first, end := Cells.CellAt(Cells.From(w.until, x)), Cells.CellAt(x + Cells.AHEAD);
    FillCellsKeep(t, f, content, Cells.Cells(first, end));
    PlaceItemsKeep(t, FillCells(t, f, content, Cells.Cells(first, end)), opening);
  }

  /* ---------------------------------------------------------------- the objects */

  /** A pool updated in place, with the instance counts of its meshes. */
  class SlotPool {
    const caps: Caps
    var entries: seq<Entry>
    var active: seq<nat>
    var coinCursor: nat
    var gemCursor: nat
    var placed: nat
    var collected: seq<nat>
    var coinCount: nat
    var gemCount: nat

    function Now(): (p: Pool)
      reads this
    {
      Pool(entries, active, coinCursor, gemCursor, placed, collected)
    }

    constructor (c: Caps)
      ensures Now() == EMPTY && caps == c
    {
      caps := c;
      entries, active, coinCursor, gemCursor, placed, collected := [], [], 0, 0, 0, [];
      coinCount, gemCount := 0, 0;
    }

    method TakeSlot(gem: bool) returns (slot: nat)
      modifies `coinCursor, `gemCursor
      ensures slot == Cursor(old(Now()), gem) && Now() == Bump(old(Now()), gem)
    {
      if gem {
        slot := gemCursor;
        gemCursor := gemCursor + 1;
      } else {
        slot := coinCursor;
        coinCursor := coinCursor + 1;
      }
    }

    /** An idle or fresh record, or none; the cursor moves whenever no record was idle. */
    method Alloc(gem: bool) returns (k: nat, found: bool)
      modifies this
      ensures found ==> k < |entries| && entries[k].gem == gem
      ensures FindIdle(old(entries), gem) < |old(entries)| ==>
                found && k == FindIdle(old(entries), gem) && Now() == old(Now())
      ensures FindIdle(old(entries), gem) == |old(entries)| ==>
                var p := old(Now());
                found == (Cursor(p, gem) < Cap(caps, gem)) && (found ==> k == |p.entries|) &&
                Now() == if found then Grow(p, gem) else Bump(p, gem)
    {
      k := FindIdle(entries, gem);
      if k < |entries| {
        return k, true;
      }
      var slot := TakeSlot(gem);
      if slot >= Cap(caps, gem) {
        k := FindIdle(entries, gem);
        return k, k < |entries|;
      }
      entries := entries + [Entry(0.0, 0.0, gem, true, slot, 0)];
      found := true;
    }

    method PlaceAt(x: real, y: real, gem: bool)
      modifies this
      ensures Now() == Place(caps, old(Now()), x, y, gem)
    {
      var k, found := Alloc(gem);
      if !found {
        return;
      }
      entries := entries[k := entries[k].(x := x, y := y, taken := false, stamp := placed)];
      placed := placed + 1;
      active := active + [k];
    }

    /** The hard-capped placement, for balloons. */
    method PlaceUnder(x: real, y: real)
      modifies this
      ensures Now() == PlaceCapped(caps.coins, old(Now()), x, y)
    {
      if |active| >= caps.coins {
        return;
      }
      var k := FindIdle(entries, false);
      if k == |entries| {
        var slot := TakeSlot(false);
        entries := entries + [Entry(0.0, 0.0, false, true, slot, 0)];
      }
      entries := entries[k := entries[k].(x := x, y := y, taken := false, stamp := placed)];
      placed := placed + 1;
      active := active + [k];
    }

    /** One frame: backwards over the active records, removing as it goes and counting what it draws. */
    method Frame(u: Rules)
      requires Sound(caps, Now())
      modifies this
      ensures Now() == Sweep(u, old(Now()), |old(active)|)
      ensures Sound(caps, Now())
      ensures coinCount == Drawn(Now(), false, |active|) <= caps.coins
      ensures gemCount == Drawn(Now(), true, |active|) <= caps.gems
    {
      ghost var before := Now();
      SweepKeeps(caps, u, before, |active|);
      Pass(u);
      DrawnFits(caps, Now(), false);
      DrawnFits(caps, Now(), true);
    }

    method Pass(u: Rules)
      requires InRange(Now()) && Distinct(active)
      modifies this
      ensures Now() == Sweep(u, old(Now()), |old(active)|) && InRange(Now())
      ensures coinCount == Drawn(Now(), false, |active|) && gemCount == Drawn(Now(), true, |active|)
    {
      coinCount, gemCount := 0, 0;
      ghost var swept := Sweep(u, Now(), |active|);
      var i: nat := |active|;
      while i > 0
        invariant InRange(Now()) && Distinct(active) && i <= |active|
        invariant Sweep(u, Now(), i) == swept
        invariant coinCount == DrawnFrom(Now(), false, i) && gemCount == DrawnFrom(Now(), true, i)
      {
        i := i - 1;
        CountedSweep(u, i);
      }
      AllDrawn(Now(), false);
      AllDrawn(Now(), true);
    }

    method CountedSweep(u: Rules, i: nat)
      requires InRange(Now()) && Distinct(active) && i < |active|
      requires coinCount == DrawnFrom(Now(), false, i + 1) && gemCount == DrawnFrom(Now(), true, i + 1)
      modifies this
      ensures Now() == SweepOne(u, old(Now()), i)
      ensures InRange(Now()) && Distinct(active) && i <= |active|
      ensures coinCount == DrawnFrom(Now(), false, i) && gemCount == DrawnFrom(Now(), true, i)
    {
      SweepOneRange(u, Now(), i);
      StepDrawn(u, Now(), i);
      SweepAt(u, i);
    }

    method SweepAt(u: Rules, i: nat)
      requires i < |active| && active[i] < |entries|
      modifies this
      ensures Now() == SweepOne(u, old(Now()), i)
      ensures FateOf(u, old(entries[active[i]])) == Stays ==>
                coinCount == old(coinCount) + (if old(entries[active[i]]).gem then 0 else 1) &&
                gemCount == old(gemCount) + (if old(entries[active[i]]).gem then 1 else 0)
      ensures FateOf(u, old(entries[active[i]])) != Stays ==> coinCount == old(coinCount) && gemCount == old(gemCount)
    {
      var k := active[i];
      var e := entries[k];
      if e.taken || u.behind(e) {
        entries := entries[k := e.(taken := true)];
        active := active[..i] + active[i + 1..];
        return;
      }
      var (x, y) := u.move(e);
      if u.hit(e) {
        entries := entries[k := e.(x := x, y := y, taken := true)];
        active := active[..i] + active[i + 1..];
        collected := collected + [e.stamp];
        return;
      }
      entries := entries[k := e.(x := x, y := y, taken := false)];
      if e.gem {
        gemCount := gemCount + 1;
      } else {
        coinCount := coinCount + 1;
      }
    }

    method Clear()
      requires InRange(Now())
      modifies this
      ensures Now() == Reset(old(Now())) && coinCount == 0 && gemCount == 0
    {
      coinCount, gemCount := 0, 0;
      var i: nat := 0;
      while i < |active|
        invariant active == old(active) && i <= |active|
        invariant Now() == old(Now()).(entries := TakeAll(old(entries), old(active), i))
        invariant coinCount == 0 && gemCount == 0
      {
        entries := entries[active[i] := entries[active[i]].(taken := true)];
        i := i + 1;
      }
      active := [];
    }
  }

  /** How many of the active records from `n` on a mesh draws. */
  function DrawnFrom(p: Pool, gem: bool, n: nat): (k: nat)
    requires InRange(p) && n <= |p.active|
    decreases |p.active| - n
  {
    if n == |p.active| then 0
    else (if p.entries[p.active[n]].gem == gem then 1 else 0) + DrawnFrom(p, gem, n + 1)
  }

  lemma {:induction false} DrawnSplit(p: Pool, gem: bool, n: nat)
    requires InRange(p) && n <= |p.active|
    ensures Drawn(p, gem, n) + DrawnFrom(p, gem, n) == Drawn(p, gem, |p.active|)
    decreases |p.active| - n
  {
    if n < |p.active| {
      DrawnSplit(p, gem, n + 1);
    }
  }

  lemma {:induction false} AllDrawn(p: Pool, gem: bool)
    requires InRange(p)
    ensures DrawnFrom(p, gem, 0) == Drawn(p, gem, |p.active|)
  {
    DrawnSplit(p, gem, 0);
  }

  lemma {:induction false} DrawnFromSame(p: Pool, q: Pool, gem: bool, n: nat, m: nat)
    requires InRange(p) && InRange(q) && n <= |p.active| && m <= |q.active|
    requires p.active[n..] == q.active[m..]
    requires |p.entries| == |q.entries|
    requires forall k :: 0 <= k < |p.entries| ==> p.entries[k].gem == q.entries[k].gem
    ensures DrawnFrom(p, gem, n) == DrawnFrom(q, gem, m)
    decreases |p.active| - n
  {
    if n < |p.active| {
      assert p.active[n] == p.active[n..][0] == q.active[m..][0] == q.active[m];
      assert p.active[n + 1..] == p.active[n..][1..] == q.active[m..][1..] == q.active[m + 1..];
      DrawnFromSame(p, q, gem, n + 1, m + 1);
    }
  }

  /** Sweeping one record counts it among the drawn exactly when it stays. */
  lemma {:induction false} StepDrawn(u: Rules, p: Pool, i: nat)
    requires InRange(p) && Distinct(p.active) && i < |p.active|
    ensures var q := SweepOne(u, p, i);
      var stays := FateOf(u, p.entries[p.active[i]]) == Stays;
      InRange(q) && i <= |q.active| &&
      forall gem :: DrawnFrom(q, gem, i) ==
                    DrawnFrom(p, gem, i + 1) + if stays && p.entries[p.active[i]].gem == gem then 1 else 0
  {
    SweepOneRange(u, p, i);
    var q := SweepOne(u, p, i);
    AfterKeepsIdentity(u, p.entries[p.active[i]]);
    var m := if FateOf(u, p.entries[p.active[i]]) == Stays then i + 1 else i;
    assert q.active[m..] == p.active[i + 1..];
    forall gem: bool ensures DrawnFrom(q, gem, m) == DrawnFrom(p, gem, i + 1) {
      DrawnFromSame(p, q, gem, i + 1, m);
    }
  }

  /** The rules of one frame, one for each pool. */
  datatype FrameRules = FrameRules(coins: Rules, rings: Rules, balloons: Rules)

  function SweepAll(u: FrameRules, f: Field): (r: Field)
    requires InRange(f.coins) && InRange(f.rings) && InRange(f.balloons)
  {
    Field(
      Sweep(u.coins, f.coins, |f.coins.active|),
      Sweep(u.rings, f.rings, |f.rings.active|),
      Sweep(u.balloons, f.balloons, |f.balloons.active|))
  }

  /** A whole frame keeps every pool sound. */
  lemma FrameKeeps(
      t: Tier, f: Field, w: Cells.Walk, x: real, content: int -> seq<Item>, opening: seq<Item>, u: FrameRules)
    requires FieldSound(t, f)
    ensures var s := Spawn(t, f, w, x, content, opening);
      FieldSound(t, s) && FieldSound(t, SweepAll(u, s))
  {
    SpawnKeeps(t, f, w, x, content, opening);
    var s := Spawn(t, f, w, x, content, opening);
    SweepKeeps(t.coins, u.coins, s.coins, |s.coins.active|);
    SweepKeeps(t.rings, u.rings, s.rings, |s.rings.active|);
    SweepKeeps(Caps(t.balloons, 0), u.balloons, s.balloons, |s.balloons.active|);
    SweepKeepsBalloons(u.balloons, s.balloons, |s.balloons.active|);
  }

  /** Where the bird is and what it carries in a frame; `drift` gives each balloon's speed, `hyp` is Math.hypot. */
  datatype Flyer = Flyer(
    x: real, y: real, dt: real, magnet: bool, scale: real, drift: nat -> real, hyp: (real, real) -> real)

  function RulesFor(b: Flyer): (u: FrameRules) {
    FrameRules(
      CoinRules(b.x, b.y, b.dt, b.magnet, b.scale, b.hyp),
      RingRules(b.x, b.y),
      BalloonRules(b.x, b.y, b.dt, b.drift, b.hyp))
  }

  /** The pools and the spawn boundary of one world. */
  class Collectibles {
    const tier: Tier
    const coins: SlotPool
    const rings: SlotPool
    const balloons: SlotPool
    var spawnedUntil: int
    var visited: seq<int>
    var openings: nat

    function Walk(): (w: Cells.Walk)
      reads this
    {
      Cells.Walk(spawnedUntil, visited, openings)
    }

    function Items(): (f: Field)
      reads this, coins, rings, balloons
    {
      Field(coins.Now(), rings.Now(), balloons.Now())
    }

    ghost predicate Apart() {
      && coins != rings && coins != balloons && rings != balloons
      && coins.caps == tier.coins && rings.caps == tier.rings && balloons.caps == Caps(tier.balloons, 0)
    }

    ghost predicate Valid()
      reads this, coins, rings, balloons
    {
      Apart() && FieldSound(tier, Items()) && Cells.InOrder(Walk())
    }

    constructor (t: Tier)
      ensures Valid() && fresh(coins) && fresh(rings) && fresh(balloons)
    {
      tier := t;
      coins := new SlotPool(t.coins);
      rings := new SlotPool(t.rings);
      balloons := new SlotPool(Caps(t.balloons, 0));
      spawnedUntil, visited, openings := -1, [], 0;
      new;
      EmptyField(t);
    }

    static lemma EmptyField(t: Tier)
      ensures FieldSound(t, Field(EMPTY, EMPTY, EMPTY)) && Cells.InOrder(Cells.START)
    {
      EmptyIsSound(t.coins);
      EmptyIsSound(t.rings);
      EmptyIsSound(Caps(t.balloons, 0));
    }

    method PutItem(item: Item)
      requires Apart()
      modifies coins, rings, balloons
      ensures Items() == PlaceItem(tier, old(Items()), item)
    {
      match item
      case CoinAt(x, y, gem) => coins.PlaceAt(x, y, gem);
      case RingAt(x, y) => rings.PlaceAt(x, y, false);
      case BalloonAt(x, y) => balloons.PlaceUnder(x, y);
    }

    method PutItems(items: seq<Item>)
      requires Apart()
      modifies coins, rings, balloons
      ensures Items() == PlaceItems(tier, old(Items()), items)
    {
      var i := 0;
      assert items[0..] == items;
      while i < |items|
        invariant i <= |items|
        invariant PlaceItems(tier, Items(), items[i..]) == PlaceItems(tier, old(Items()), items)
      {
        assert items[i..][1..] == items[i + 1..];
        PutItem(items[i]);
        i := i + 1;
      }
    }

    /** Fills each cell that starts at or after `x0` and before `end`. */
    method SpawnRange(x0: real, end: int, content: int -> seq<Item>, opening: seq<Item>)
      requires Apart()
      modifies `visited, `openings, coins, rings, balloons
      ensures visited == old(visited) + Cells.Cells(Cells.CellAt(x0), end)
      ensures openings == old(openings) + if spawnedUntil < 0 then 1 else 0
      ensures var filled := FillCells(tier, old(Items()), content, Cells.Cells(Cells.CellAt(x0), end));
        Items() == if spawnedUntil < 0 then PlaceItems(tier, filled, opening) else filled
    {
      var first := Cells.CellAt(x0);
      FillFrom(first, end, content);
      if spawnedUntil < 0 {
        PutItems(opening);
        openings := openings + 1;
      }
    }

    method FillFrom(first: int, end: int, content: int -> seq<Item>)
      requires Apart()
      modifies `visited, coins, rings, balloons
      ensures visited == old(visited) + Cells.Cells(first, end)
      ensures Items() == FillCells(tier, old(Items()), content, Cells.Cells(first, end))
    {
      var k := first;
      while k < end
        invariant first <= k
        invariant visited + Cells.Cells(k, end) == old(visited) + Cells.Cells(first, end)
        invariant FillCells(tier, Items(), content, Cells.Cells(k, end)) ==
                  FillCells(tier, old(Items()), content, Cells.Cells(first, end))
      {
        NextCell(visited, k, end);
        FillNext(k, content);
        k := k + 1;
      }
      assert visited + [] == visited;
    }

    method FillNext(k: int, content: int -> seq<Item>)
      requires Apart()
      modifies `visited, coins, rings, balloons
      ensures visited == old(visited) + [k]
      ensures Items() == PlaceItems(tier, old(Items()), content(k))
    {
      PutItems(content(k));
      visited := visited + [k];
    }

    static lemma NextCell(done: seq<int>, k: int, end: int)
      requires k < end
      ensures done + Cells.Cells(k, end) == done + [k] + Cells.Cells(k + 1, end)
      ensures Cells.Cells(k, end)[0] == k && Cells.Cells(k, end)[1..] == Cells.Cells(k + 1, end)
    {
    }

    /** One frame: new cells first, then every pool's pass. */
    method Update(b: Flyer, content: int -> seq<Item>, opening: seq<Item>)
      requires Valid()
      modifies this, coins, rings, balloons
      ensures Valid()
      ensures Walk() == Cells.Update(old(Walk()), b.x)
      ensures FieldSound(tier, Spawn(tier, old(Items()), old(Walk()), b.x, content, opening))
      ensures Items() == SweepAll(RulesFor(b), Spawn(tier, old(Items()), old(Walk()), b.x, content, opening))
    {
      Cells.UpdateKeepsOrder(Walk(), b.x);
      FrameKeeps(tier, Items(), Walk(), b.x, content, opening, RulesFor(b));
      SpawnAhead(b.x, content, opening);
      SweepPools(RulesFor(b));
    }

    method SpawnAhead(x: real, content: int -> seq<Item>, opening: seq<Item>)
      requires Apart()
      modifies this, coins, rings, balloons
      ensures Walk() == Cells.Update(old(Walk()), x)
      ensures Items() == Spawn(tier, old(Items()), old(Walk()), x, content, opening)
    {
      var end := Cells.CellAt(x + Cells.AHEAD);
      if end * Cells.SPAWN_CELL > spawnedUntil {
        SpawnRange(Cells.From(spawnedUntil, x), end, content, opening);
        spawnedUntil := end * Cells.SPAWN_CELL;
      }
    }

    method SweepPools(u: FrameRules)
      requires Apart() && FieldSound(tier, Items())
      modifies coins, rings, balloons
      ensures Items() == SweepAll(u, old(Items()))
    {
      coins.Frame(u.coins);
      rings.Frame(u.rings);
      balloons.Frame(u.balloons);
    }

    /** A new run in the same world: nothing active, and every cell to fill again. */
    method Restart()
      requires Valid()
      modifies this, coins, rings, balloons
      ensures Valid() && Walk() == Cells.START
      ensures Items() == Field(Reset(old(coins.Now())), Reset(old(rings.Now())), Reset(old(balloons.Now())))
    {
      ResetKeeps(tier.coins, coins.Now());
      ResetKeeps(tier.rings, rings.Now());
      ResetKeeps(Caps(tier.balloons, 0), balloons.Now());
      ResetKeepsBalloons(balloons.Now());
      coins.Clear();
      rings.Clear();
      balloons.Clear();
      spawnedUntil, visited, openings := -1, [], 0;
    }
  }
}
