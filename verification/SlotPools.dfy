/** Recycled objects with slots (src/game/Collectibles.ts). */
module SlotPools {

  /** A pooled record. `stamp` numbers the placement it holds, or last held. */
  datatype Entry = Entry(x: real, y: real, gem: bool, taken: bool, slot: nat, stamp: nat)

  /** The instance capacity of each mesh. */
  datatype Caps = Caps(coins: nat, gems: nat)

  /**
   * Records by position, the active positions in placement order, the next fresh slot of each kind,
   * the placements so far, and the placements that have been collected.
   */
  datatype Pool = Pool(
    entries: seq<Entry>, active: seq<nat>, coinCursor: nat, gemCursor: nat, placed: nat, collected: seq<nat>)

  const EMPTY := Pool([], [], 0, 0, 0, [])

  function Cap(c: Caps, gem: bool): (n: nat) { if gem then c.gems else c.coins }

  function Cursor(p: Pool, gem: bool): (n: nat) { if gem then p.gemCursor else p.coinCursor }

  /* ----------------------------------------------------------------- placing */

  predicate Idle(e: Entry, gem: bool) {
    e.taken && e.gem == gem
  }

  /** `find` of the first idle record of a kind, or the length. */
  function FindIdle(es: seq<Entry>, gem: bool): (k: nat)
    ensures k <= |es|
    ensures forall i :: 0 <= i < k ==> !Idle(es[i], gem)
    ensures k < |es| ==> Idle(es[k], gem)
  {
    if es == [] || Idle(es[0], gem) then 0 else 1 + FindIdle(es[1..], gem)
  }

  function Bump(p: Pool, gem: bool): (r: Pool) {
    if gem then p.(gemCursor := p.gemCursor + 1) else p.(coinCursor := p.coinCursor + 1)
  }

  /** Gives the record at `k` to a new placement. */
  function Activate(p: Pool, k: nat, x: real, y: real): (r: Pool)
    requires k < |p.entries|
  {
    p.(
      entries := p.entries[k := p.entries[k].(x := x, y := y, taken := false, stamp := p.placed)],
      active := p.active + [k], placed := p.placed + 1)
  }

  function Grow(p: Pool, gem: bool): (r: Pool) {
    Bump(p.(entries := p.entries + [Entry(0.0, 0.0, gem, true, Cursor(p, gem), 0)]), gem)
  }

  /** An idle record of the kind, a fresh one while slots are left, or nothing. */
  function Place(c: Caps, p: Pool, x: real, y: real, gem: bool): (r: Pool) {
    var k := FindIdle(p.entries, gem);
    if k < |p.entries| then Activate(p, k, x, y)
    else if Cursor(p, gem) >= Cap(c, gem) then Bump(p, gem)
    else Activate(Grow(p, gem), |p.entries|, x, y)
  }

  /* ---------------------------------------------------------------- sweeping */

  /** What one frame asks of a record: is it behind, where does it drift, is it hit. */
  datatype Rules = Rules(behind: Entry -> bool, move: Entry -> (real, real), hit: Entry -> bool)

  datatype Fate = Leaves | Hit | Stays

  function FateOf(u: Rules, e: Entry): (f: Fate) {
    if e.taken || u.behind(e) then Leaves else if u.hit(e) then Hit else Stays
  }

  function After(u: Rules, e: Entry): (r: Entry) {
    if FateOf(u, e) == Leaves then e.(taken := true)
    else e.(x := u.move(e).0, y := u.move(e).1, taken := FateOf(u, e) == Hit)
  }

  function SweepOne(u: Rules, p: Pool, i: nat): (r: Pool)
    requires i < |p.active| && p.active[i] < |p.entries|
  {
    var k := p.active[i];
    var e := p.entries[k];
    var f := FateOf(u, e);
    p.(
      entries := p.entries[k := After(u, e)],
      active := if f == Stays then p.active else p.active[..i] + p.active[i + 1..],
      collected := if f == Hit then p.collected + [e.stamp] else p.collected)
  }

  predicate InRange(p: Pool) {
    forall i :: 0 <= i < |p.active| ==> p.active[i] < |p.entries|
  }

  /** The backwards pass over the first `n` active records. */
  function Sweep(u: Rules, p: Pool, n: nat): (r: Pool)
    requires InRange(p) && n <= |p.active|
    ensures |r.entries| == |p.entries|
    decreases n
  {
    if n == 0 then p else Sweep(u, SweepOne(u, p, n - 1), n - 1)
  }

  /** How many of the active records a mesh draws. */
  function Drawn(p: Pool, gem: bool, n: nat): (k: nat)
    requires InRange(p) && n <= |p.active|
  {
    if n == 0 then 0 else Drawn(p, gem, n - 1) + if p.entries[p.active[n - 1]].gem == gem then 1 else 0
  }

  /* --------------------------------------------------------------- resetting */

  function TakeAll(es: seq<Entry>, active: seq<nat>, n: nat): (r: seq<Entry>)
    requires n <= |active| && forall i :: 0 <= i < |active| ==> active[i] < |es|
    ensures |r| == |es|
    decreases n
  {
    if n == 0 then es
    else
      var rest := TakeAll(es, active, n - 1);
      rest[active[n - 1] := rest[active[n - 1]].(taken := true)]
  }

  function Reset(p: Pool): (r: Pool)
    requires InRange(p)
  {
    p.(entries := TakeAll(p.entries, p.active, |p.active|), active := [])
  }

  /* --------------------------------------------------------------- invariant */

  predicate Distinct(s: seq<nat>) {
    forall i, j :: 0 <= i < j < |s| ==> s[i] != s[j]
  }

  /** A record is marked taken exactly when it is not active. */
  predicate TakenIffIdle(p: Pool) {
    forall k :: 0 <= k < |p.entries| ==> (p.entries[k].taken <==> k !in p.active)
  }

  predicate SlotsDistinct(es: seq<Entry>) {
    forall i, j :: 0 <= i < j < |es| && es[i].gem == es[j].gem ==> es[i].slot != es[j].slot
  }

  predicate SlotsInRange(c: Caps, p: Pool) {
    forall k :: 0 <= k < |p.entries| ==>
      p.entries[k].slot < Cap(c, p.entries[k].gem) && p.entries[k].slot < Cursor(p, p.entries[k].gem)
  }

  predicate Holds(es: seq<Entry>, gem: bool, slot: nat) {
    exists k :: 0 <= k < |es| && es[k].gem == gem && es[k].slot == slot
  }

  /** Every slot handed out belongs to a record. */
  predicate SlotsHeld(c: Caps, p: Pool) {
    forall gem: bool, slot: nat :: slot < Cap(c, gem) && slot < Cursor(p, gem) ==> Holds(p.entries, gem, slot)
  }

  /** Active placements are different ones, none collected; none is collected twice. */
  predicate StampsFresh(p: Pool) {
    && (forall k :: 0 <= k < |p.entries| && !p.entries[k].taken ==>
          p.entries[k].stamp < p.placed && p.entries[k].stamp !in p.collected)
    && (forall j, k :: 0 <= j < k < |p.entries| && !p.entries[j].taken && !p.entries[k].taken ==>
          p.entries[j].stamp != p.entries[k].stamp)
    && (forall i :: 0 <= i < |p.collected| ==> p.collected[i] < p.placed)
    && Distinct(p.collected)
  }

  predicate Sound(c: Caps, p: Pool) {
    && InRange(p)
    && Distinct(p.active)
    && TakenIffIdle(p)
    && SlotsDistinct(p.entries)
    && SlotsInRange(c, p)
    && SlotsHeld(c, p)
    && StampsFresh(p)
  }

  /* ------------------------------------------------------- placing keeps it */

  lemma ActivateKeeps(c: Caps, p: Pool, k: nat, x: real, y: real)
    requires Sound(c, p) && k < |p.entries| && p.entries[k].taken
    ensures Sound(c, Activate(p, k, x, y))
  {
    ActivateKeepsActive(p, k, x, y);
    ActivateKeepsSlots(c, p, k, x, y);
    ActivateKeepsStamps(p, k, x, y);
  }

  lemma ActivateKeepsActive(p: Pool, k: nat, x: real, y: real)
    requires InRange(p) && Distinct(p.active) && TakenIffIdle(p) && k < |p.entries| && p.entries[k].taken
    ensures var r := Activate(p, k, x, y);
      InRange(r) && Distinct(r.active) && TakenIffIdle(r)
  {
  }

  lemma ActivateKeepsSlots(c: Caps, p: Pool, k: nat, x: real, y: real)
    requires k < |p.entries| && SlotsDistinct(p.entries) && SlotsInRange(c, p) && SlotsHeld(c, p)
    ensures var r := Activate(p, k, x, y);
      SlotsDistinct(r.entries) && SlotsInRange(c, r) && SlotsHeld(c, r)
  {
    var r := Activate(p, k, x, y);
    SameSlotsHeld(c, p, r);
  }

  lemma SameSlotsHeld(c: Caps, p: Pool, r: Pool)
    requires SlotsHeld(c, p) && |p.entries| == |r.entries|
    requires p.coinCursor == r.coinCursor && p.gemCursor == r.gemCursor
    requires forall k :: 0 <= k < |p.entries| ==>
               p.entries[k].gem == r.entries[k].gem && p.entries[k].slot == r.entries[k].slot
    ensures SlotsHeld(c, r)
  {
    forall gem: bool, slot: nat | slot < Cap(c, gem) && slot < Cursor(r, gem) ensures Holds(r.entries, gem, slot) {
      assert Holds(p.entries, gem, slot);
      var k :| 0 <= k < |p.entries| && p.entries[k].gem == gem && p.entries[k].slot == slot;
      assert r.entries[k].gem == gem && r.entries[k].slot == slot;
    }
  }

  lemma ActivateKeepsStamps(p: Pool, k: nat, x: real, y: real)
    requires k < |p.entries| && StampsFresh(p)
    ensures StampsFresh(Activate(p, k, x, y))
  {
  }

  lemma GrowKeeps(c: Caps, p: Pool, gem: bool)
    requires Sound(c, p) && Cursor(p, gem) < Cap(c, gem)
    ensures Sound(c, Grow(p, gem)) && Grow(p, gem).entries[|p.entries|].taken
  {
    GrowKeepsActive(p, gem);
    GrowKeepsSlots(c, p, gem);
    GrowKeepsHeld(c, p, gem);
    GrowKeepsStamps(p, gem);
  }

  lemma GrowKeepsActive(p: Pool, gem: bool)
    requires InRange(p) && Distinct(p.active) && TakenIffIdle(p)
    ensures var r := Grow(p, gem);
      InRange(r) && Distinct(r.active) && TakenIffIdle(r)
  {
  }

  lemma GrowKeepsSlots(c: Caps, p: Pool, gem: bool)
    requires SlotsDistinct(p.entries) && SlotsInRange(c, p) && Cursor(p, gem) < Cap(c, gem)
    ensures SlotsDistinct(Grow(p, gem).entries) && SlotsInRange(c, Grow(p, gem))
  {
    var r := Grow(p, gem);
    forall i, j | 0 <= i < j < |r.entries| && r.entries[i].gem == r.entries[j].gem
      ensures r.entries[i].slot != r.entries[j].slot
    {
      assert r.entries[i] == p.entries[i];
    }
  }

  lemma GrowKeepsHeld(c: Caps, p: Pool, gem: bool)
    requires SlotsHeld(c, p)
    ensures SlotsHeld(c, Grow(p, gem))
  {
    var r := Grow(p, gem);
    forall g: bool, slot: nat | slot < Cap(c, g) && slot < Cursor(r, g) ensures Holds(r.entries, g, slot) {
      if g == gem && slot == Cursor(p, gem) {
        assert r.entries[|p.entries|].slot == slot;
      } else {
        assert Holds(p.entries, g, slot);
        var k :| 0 <= k < |p.entries| && p.entries[k].gem == g && p.entries[k].slot == slot;
        assert r.entries[k] == p.entries[k];
      }
    }
  }

  lemma GrowKeepsStamps(p: Pool, gem: bool)
    requires StampsFresh(p)
    ensures StampsFresh(Grow(p, gem))
  {
  }

  lemma BumpKeeps(c: Caps, p: Pool, gem: bool)
    requires Sound(c, p) && Cursor(p, gem) >= Cap(c, gem)
    ensures Sound(c, Bump(p, gem))
  {
  }

  /** Spawning never breaks the pool. */
  lemma PlaceKeeps(c: Caps, p: Pool, x: real, y: real, gem: bool)
    requires Sound(c, p)
    ensures Sound(c, Place(c, p, x, y, gem))
  {
    var k := FindIdle(p.entries, gem);
    if k < |p.entries| {
      ActivateKeeps(c, p, k, x, y);
    } else if Cursor(p, gem) >= Cap(c, gem) {
      BumpKeeps(c, p, gem);
    } else {
      GrowKeeps(c, p, gem);
      ActivateKeeps(c, Grow(p, gem), |p.entries|, x, y);
    }
  }

  /** Every instance slot of the kind is in use. */
  predicate Full(c: Caps, p: Pool, gem: bool)
    requires InRange(p)
  {
    forall slot: nat :: slot < Cap(c, gem) ==> InUse(p, gem, slot)
  }

  predicate InUse(p: Pool, gem: bool, slot: nat)
    requires InRange(p)
  {
    exists i :: 0 <= i < |p.active| && p.entries[p.active[i]].gem == gem && p.entries[p.active[i]].slot == slot
  }

  /**
   * A placement is dropped exactly when every slot of its kind is in use; otherwise it becomes the
   * last active record.
   */
  lemma DroppedOnlyWhenFull(c: Caps, p: Pool, x: real, y: real, gem: bool)
    requires Sound(c, p)
    ensures var r := Place(c, p, x, y, gem);
      (Full(c, p, gem) ==> r.active == p.active && r.entries == p.entries) &&
      (!Full(c, p, gem) ==>
         |r.active| == |p.active| + 1 && r.active[..|p.active|] == p.active &&
         PlacedAt(r, x, y, gem, p.placed))
  {
    var k := FindIdle(p.entries, gem);
    if k < |p.entries| {
      IdleMeansRoom(c, p, k);
    } else if Cursor(p, gem) >= Cap(c, gem) {
      NoIdleNoRoom(c, p, gem);
    } else {
      FreshMeansRoom(c, p, gem);
    }
  }

  /** The last active record holds the given placement. */
  predicate PlacedAt(r: Pool, x: real, y: real, gem: bool, stamp: nat) {
    && r.active != [] && r.active[|r.active| - 1] < |r.entries|
    && var e := r.entries[r.active[|r.active| - 1]];
       e.x == x && e.y == y && e.gem == gem && !e.taken && e.stamp == stamp
  }

  lemma IdleMeansRoom(c: Caps, p: Pool, k: nat)
    requires Sound(c, p) && k < |p.entries| && p.entries[k].taken
    ensures !Full(c, p, p.entries[k].gem)
  {
    var e := p.entries[k];
    forall i | 0 <= i < |p.active|
      ensures !(p.entries[p.active[i]].gem == e.gem && p.entries[p.active[i]].slot == e.slot)
    {
      assert p.active[i] in p.active;
    }
    assert !InUse(p, e.gem, e.slot);
  }

  lemma FreshMeansRoom(c: Caps, p: Pool, gem: bool)
    requires Sound(c, p) && Cursor(p, gem) < Cap(c, gem)
    ensures !Full(c, p, gem)
  {
    assert !InUse(p, gem, Cursor(p, gem));
  }

  lemma NoIdleNoRoom(c: Caps, p: Pool, gem: bool)
    requires Sound(c, p) && Cursor(p, gem) >= Cap(c, gem)
    requires forall k :: 0 <= k < |p.entries| ==> !Idle(p.entries[k], gem)
    ensures Full(c, p, gem)
  {
    forall slot: nat | slot < Cap(c, gem) ensures InUse(p, gem, slot) {
      assert Holds(p.entries, gem, slot);
      var k :| 0 <= k < |p.entries| && p.entries[k].gem == gem && p.entries[k].slot == slot;
      assert k in p.active;
      var i :| 0 <= i < |p.active| && p.active[i] == k;
      assert p.entries[p.active[i]].slot == slot;
    }
  }

  /* ------------------------------------------------------- sweeping keeps it */

  lemma AfterKeepsIdentity(u: Rules, e: Entry)
    ensures var r := After(u, e);
      r.gem == e.gem && r.slot == e.slot && r.stamp == e.stamp && (r.taken <==> FateOf(u, e) != Stays)
  {
  }

  lemma RemoveAt(s: seq<nat>, i: nat)
    requires i < |s| && Distinct(s)
    ensures Distinct(s[..i] + s[i + 1..])
    ensures forall k :: k in s[..i] + s[i + 1..] <==> k in s && k != s[i]
  {
    var t := s[..i] + s[i + 1..];
    forall k | k in s && k != s[i] ensures k in t {
      var j :| 0 <= j < |s| && s[j] == k;
      assert t[if j < i then j else j - 1] == k;
    }
    forall a, b | 0 <= a < b < |t| ensures t[a] != t[b] {
      assert t[a] == s[if a < i then a else a + 1] && t[b] == s[if b < i then b else b + 1];
    }
    forall k | k in t ensures k in s && k != s[i] {
      var a :| 0 <= a < |t| && t[a] == k;
      assert t[a] == s[if a < i then a else a + 1];
    }
  }

  lemma SweepOneKeepsActive(u: Rules, p: Pool, i: nat)
    requires InRange(p) && Distinct(p.active) && TakenIffIdle(p) && i < |p.active|
    ensures var r := SweepOne(u, p, i);
      InRange(r) && Distinct(r.active) && TakenIffIdle(r)
  {
    var k := p.active[i];
    var r := SweepOne(u, p, i);
    AfterKeepsIdentity(u, p.entries[k]);
    RemoveAt(p.active, i);
    forall j | 0 <= j < |r.active| ensures r.active[j] < |r.entries| {
      assert r.active[j] in p.active;
    }
  }

  lemma SweepOneKeepsSlots(c: Caps, u: Rules, p: Pool, i: nat)
    requires i < |p.active| && p.active[i] < |p.entries|
    requires SlotsDistinct(p.entries) && SlotsInRange(c, p) && SlotsHeld(c, p)
    ensures var r := SweepOne(u, p, i);
      SlotsDistinct(r.entries) && SlotsInRange(c, r) && SlotsHeld(c, r)
  {
    AfterKeepsIdentity(u, p.entries[p.active[i]]);
    SameSlotsHeld(c, p, SweepOne(u, p, i));
  }

  lemma SweepOneKeepsStamps(u: Rules, p: Pool, i: nat)
    requires i < |p.active| && p.active[i] < |p.entries| && !p.entries[p.active[i]].taken && StampsFresh(p)
    ensures StampsFresh(SweepOne(u, p, i))
  {
    AfterKeepsIdentity(u, p.entries[p.active[i]]);
  }

  lemma SweepOneKeeps(c: Caps, u: Rules, p: Pool, i: nat)
    requires Sound(c, p) && i < |p.active|
    ensures Sound(c, SweepOne(u, p, i))
    ensures SweepOne(u, p, i).active[..i] == p.active[..i]
  {
    assert p.active[i] in p.active;
    SweepOneKeepsActive(u, p, i);
    SweepOneKeepsSlots(c, u, p, i);
    SweepOneKeepsStamps(u, p, i);
  }

  /** A frame's pass keeps the pool sound. */
  lemma {:induction false} SweepKeeps(c: Caps, u: Rules, p: Pool, n: nat)
    requires Sound(c, p) && n <= |p.active|
    ensures Sound(c, Sweep(u, p, n))
    decreases n
  {
    if n > 0 {
      SweepOneKeeps(c, u, p, n - 1);
      SweepKeeps(c, u, SweepOne(u, p, n - 1), n - 1);
    }
  }

  /* -------------------------------------------- what the backwards pass means */

  /** The positions whose records stay, in order. */
  function Staying(u: Rules, es: seq<Entry>, ks: seq<nat>): (r: seq<nat>)
    requires forall i :: 0 <= i < |ks| ==> ks[i] < |es|
  {
    if ks == [] then []
    else
      var last := ks[|ks| - 1];
      Staying(u, es, ks[..|ks| - 1]) + if FateOf(u, es[last]) == Stays then [last] else []
  }

  /** The placements hit, last record first. */
  function HitStamps(u: Rules, es: seq<Entry>, ks: seq<nat>): (r: seq<nat>)
    requires forall i :: 0 <= i < |ks| ==> ks[i] < |es|
  {
    if ks == [] then []
    else
      var last := ks[|ks| - 1];
      (if FateOf(u, es[last]) == Hit then [es[last].stamp] else []) + HitStamps(u, es, ks[..|ks| - 1])
  }

  lemma {:induction false} PassFrame(u: Rules, es: seq<Entry>, k: nat, e: Entry, ks: seq<nat>)
    requires k < |es| && k !in ks && forall i :: 0 <= i < |ks| ==> ks[i] < |es|
    ensures Staying(u, es[k := e], ks) == Staying(u, es, ks)
    ensures HitStamps(u, es[k := e], ks) == HitStamps(u, es, ks)
  {
    if ks != [] {
      var rest := ks[..|ks| - 1];
      assert ks[|ks| - 1] in ks;
      PassFrame(u, es, k, e, rest);
    }
  }

  lemma SplitActive(s: seq<nat>, n: nat)
    requires 0 < n <= |s| && Distinct(s)
    ensures s[n - 1] !in s[..n - 1] && s[..n][..n - 1] == s[..n - 1] && s[..n][|s[..n]| - 1] == s[n - 1]
    ensures (s[..n - 1] + s[n..])[..n - 1] == s[..n - 1] && (s[..n - 1] + s[n..])[n - 1..] == s[n..]
    ensures s[n - 1..] == [s[n - 1]] + s[n..]
  {
  }

  /**
   * Removing as it goes backwards, the pass leaves exactly the records that stay, in their order,
   * and reports every hit once.
   */
  lemma {:induction false} SweepActive(u: Rules, p: Pool, n: nat)
    requires InRange(p) && Distinct(p.active) && n <= |p.active|
    ensures var r := Sweep(u, p, n);
      r.active == Staying(u, p.entries, p.active[..n]) + p.active[n..] &&
      r.collected == p.collected + HitStamps(u, p.entries, p.active[..n]) &&
      r.placed == p.placed && r.coinCursor == p.coinCursor && r.gemCursor == p.gemCursor
    decreases n
  {
    if n == 0 {
      assert p.active[0..] == p.active && p.collected + [] == p.collected;
    } else {
      var q := SweepOne(u, p, n - 1);
      SweepOneRange(u, p, n - 1);
      SweepActive(u, q, n - 1);
      SweepActiveStep(u, p, q, Sweep(u, q, n - 1), n);
    }
  }

  lemma SweepOneRange(u: Rules, p: Pool, i: nat)
    requires InRange(p) && Distinct(p.active) && i < |p.active|
    ensures var q := SweepOne(u, p, i);
      InRange(q) && Distinct(q.active) && i <= |q.active| && q.active[..i] == p.active[..i] &&
      |q.entries| == |p.entries|
  {
    RemoveAt(p.active, i);
    var q := SweepOne(u, p, i);
    forall j | 0 <= j < |q.active| ensures q.active[j] < |q.entries| {
      assert q.active[j] in p.active;
    }
  }

  lemma {:induction false} SweepActiveStep(u: Rules, p: Pool, q: Pool, r: Pool, n: nat)
    requires InRange(p) && Distinct(p.active) && 0 < n <= |p.active| && q == SweepOne(u, p, n - 1)
    requires InRange(q) && q.active[..n - 1] == p.active[..n - 1]
    requires r.active == Staying(u, q.entries, q.active[..n - 1]) + q.active[n - 1..]
    requires r.collected == q.collected + HitStamps(u, q.entries, q.active[..n - 1])
    ensures r.active == Staying(u, p.entries, p.active[..n]) + p.active[n..]
    ensures r.collected == p.collected + HitStamps(u, p.entries, p.active[..n])
  {
    var k := p.active[n - 1];
    SplitActive(p.active, n);
    PassFrame(u, p.entries, k, After(u, p.entries[k]), p.active[..n - 1]);
    ComposeSweep(u, p, q, n);
  }

  lemma {:induction false} ComposeSweep(u: Rules, p: Pool, q: Pool, n: nat)
    requires InRange(p) && Distinct(p.active) && 0 < n <= |p.active| && q == SweepOne(u, p, n - 1)
    ensures q.active[..n - 1] == p.active[..n - 1]
    ensures Staying(u, p.entries, p.active[..n - 1]) + q.active[n - 1..] ==
            Staying(u, p.entries, p.active[..n]) + p.active[n..]
    ensures q.collected + HitStamps(u, p.entries, p.active[..n - 1]) ==
            p.collected + HitStamps(u, p.entries, p.active[..n])
  {
    SplitActive(p.active, n);
    assert q.active[..n - 1] == p.active[..n - 1];
  }

  /** Each swept record becomes what its fate says; no other record is touched. */
  lemma {:induction false} SweepEntries(u: Rules, p: Pool, n: nat, k: nat)
    requires InRange(p) && Distinct(p.active) && n <= |p.active| && k < |p.entries|
    ensures Sweep(u, p, n).entries[k] == if k in p.active[..n] then After(u, p.entries[k]) else p.entries[k]
    decreases n
  {
    if n > 0 {
      var q := SweepOne(u, p, n - 1);
      SweepOneRange(u, p, n - 1);
      SweepEntries(u, q, n - 1, k);
      OneMore(p.active, n, k);
    }
  }

  lemma OneMore(s: seq<nat>, n: nat, k: nat)
    requires 0 < n <= |s| && Distinct(s)
    ensures k in s[..n] <==> k in s[..n - 1] || k == s[n - 1]
    ensures s[n - 1] !in s[..n - 1]
  {
    assert s[..n] == s[..n - 1] + [s[n - 1]];
  }

  /* ------------------------------------------------- the meshes never overflow */

  /** The slots drawn for a kind. */
  ghost function DrawnSlots(p: Pool, gem: bool, n: nat): (s: set<nat>)
    requires InRange(p) && n <= |p.active|
  {
    if n == 0 then {}
    else
      DrawnSlots(p, gem, n - 1) +
      if p.entries[p.active[n - 1]].gem == gem then {p.entries[p.active[n - 1]].slot} else {}
  }

  lemma {:induction false} DrawnSlotsAre(p: Pool, gem: bool, n: nat)
    requires InRange(p) && n <= |p.active|
    ensures forall s :: s in DrawnSlots(p, gem, n) <==>
              exists i :: 0 <= i < n && p.entries[p.active[i]].gem == gem && p.entries[p.active[i]].slot == s
    decreases n
  {
    if n > 0 {
      DrawnSlotsAre(p, gem, n - 1);
    }
  }

  lemma {:induction false} DrawnCountsSlots(c: Caps, p: Pool, gem: bool, n: nat)
    requires Sound(c, p) && n <= |p.active|
    ensures |DrawnSlots(p, gem, n)| == Drawn(p, gem, n)
    ensures forall s :: s in DrawnSlots(p, gem, n) ==> s < Cap(c, gem)
    decreases n
  {
    if n > 0 {
      DrawnCountsSlots(c, p, gem, n - 1);
      DrawnSlotsAre(p, gem, n - 1);
      var e := p.entries[p.active[n - 1]];
      if e.gem == gem {
        NewSlot(p, gem, n);
      }
    }
  }

  lemma NewSlot(p: Pool, gem: bool, n: nat)
    requires InRange(p) && Distinct(p.active) && SlotsDistinct(p.entries) && 0 < n <= |p.active|
    requires p.entries[p.active[n - 1]].gem == gem
    ensures p.entries[p.active[n - 1]].slot !in DrawnSlots(p, gem, n - 1)
  {
    DrawnSlotsAre(p, gem, n - 1);
    var last := p.active[n - 1];
    forall i | 0 <= i < n - 1 && p.entries[p.active[i]].gem == gem
      ensures p.entries[p.active[i]].slot != p.entries[last].slot
    {
      var k := p.active[i];
      assert k != last;
      if k < last {
        assert p.entries[k].slot != p.entries[last].slot;
      } else {
        assert p.entries[last].slot != p.entries[k].slot;
      }
    }
  }

  lemma {:induction false} SmallSet(s: set<nat>, n: nat)
    requires forall x :: x in s ==> x < n
    ensures |s| <= n
    decreases n
  {
    if n > 0 {
      SmallSet(s - {n - 1}, n - 1);
      if n - 1 in s {
        assert |s - {n - 1}| == |s| - 1;
      } else {
        assert s - {n - 1} == s;
      }
    } else {
      assert s == {};
    }
  }

  /** A mesh never draws more instances than it has room for. */
  lemma {:induction false} DrawnFits(c: Caps, p: Pool, gem: bool)
    requires Sound(c, p)
    ensures Drawn(p, gem, |p.active|) <= Cap(c, gem)
  {
    DrawnCountsSlots(c, p, gem, |p.active|);
    SmallSet(DrawnSlots(p, gem, |p.active|), Cap(c, gem));
  }

  /* ------------------------------------------------------ resetting keeps it */

  lemma {:induction false} TakeAllAt(es: seq<Entry>, active: seq<nat>, n: nat, k: nat)
    requires n <= |active| && k < |es| && forall i :: 0 <= i < |active| ==> active[i] < |es|
    ensures TakeAll(es, active, n)[k] == if k in active[..n] then es[k].(taken := true) else es[k]
    decreases n
  {
    if n > 0 {
      TakeAllAt(es, active, n - 1, k);
      assert active[..n] == active[..n - 1] + [active[n - 1]];
      TakeAllAt(es, active, n - 1, active[n - 1]);
    }
  }

  /** A reset leaves nothing active, everything idle, and the collected placements as they were. */
  lemma ResetKeeps(c: Caps, p: Pool)
    requires Sound(c, p)
    ensures Sound(c, Reset(p)) && Reset(p).active == [] && Reset(p).collected == p.collected
    ensures forall k :: 0 <= k < |Reset(p).entries| ==> Reset(p).entries[k].taken
  {
    var r := Reset(p);
    assert p.active[..|p.active|] == p.active;
    forall k | 0 <= k < |p.entries|
      ensures r.entries[k] == p.entries[k].(taken := true)
    {
      TakeAllAt(p.entries, p.active, |p.active|, k);
    }
    SameSlotsHeld(c, p, r);
    ResetStamps(p, r);
  }

  lemma ResetStamps(p: Pool, r: Pool)
    requires StampsFresh(p) && r.collected == p.collected && r.placed == p.placed
    requires forall k :: 0 <= k < |r.entries| ==> r.entries[k].taken
    ensures StampsFresh(r)
  {
  }

  /* --------------------------------------------------------------------- runs */

  datatype Event =
    | Spawned(x: real, y: real, gem: bool)
    | Framed(u: Rules)
    | WasReset

  function Step(c: Caps, p: Pool, e: Event): (r: Pool)
    requires InRange(p)
  {
    match e
    case Spawned(x, y, gem) => Place(c, p, x, y, gem)
    case Framed(u) => Sweep(u, p, |p.active|)
    case WasReset => Reset(p)
  }

  lemma StepKeeps(c: Caps, p: Pool, e: Event)
    requires Sound(c, p)
    ensures Sound(c, Step(c, p, e)) && p.collected <= Step(c, p, e).collected
  {
    match e
    case Spawned(x, y, gem) => PlaceKeeps(c, p, x, y, gem);
    case Framed(u) =>
      SweepKeeps(c, u, p, |p.active|);
      SweepActive(u, p, |p.active|);
    case WasReset => ResetKeeps(c, p);
  }

  function Run(c: Caps, p: Pool, es: seq<Event>): (r: Pool)
    requires Sound(c, p)
    decreases |es|
  {
    if es == [] then p
    else
      StepKeeps(c, p, es[0]);
      Run(c, Step(c, p, es[0]), es[1..])
  }

  lemma EmptyIsSound(c: Caps)
    ensures Sound(c, EMPTY)
  {
  }

  lemma {:induction false} RunKeeps(c: Caps, p: Pool, es: seq<Event>)
    requires Sound(c, p)
    ensures Sound(c, Run(c, p, es)) && p.collected <= Run(c, p, es).collected
    decreases |es|
  {
    if es != [] {
      StepKeeps(c, p, es[0]);
      RunKeeps(c, Step(c, p, es[0]), es[1..]);
    }
  }

  /**
   * After any sequence of spawns, frames and resets: active records are distinct, with distinct
   * slots, taken exactly when idle; each placement was collected at most once; no mesh overflows.
   */
  lemma {:induction false} EveryRun(c: Caps, es: seq<Event>)
    ensures Sound(c, EMPTY)
    ensures var r := Run(c, EMPTY, es);
      Sound(c, r) && Drawn(r, false, |r.active|) <= c.coins && Drawn(r, true, |r.active|) <= c.gems
  {
    EmptyIsSound(c);
    RunKeeps(c, EMPTY, es);
    DrawnFits(c, Run(c, EMPTY, es), false);
    DrawnFits(c, Run(c, EMPTY, es), true);
  }
}
