/**
 * Which 26 m cells of the world get their contents, and when (src/game/Collectibles.ts): a window
 * around the bird that is filled as it moves, each cell once.
 */
module SpawnCells {

  const SPAWN_CELL: int := 26
  const AHEAD := 420.0
  const BEHIND := 20.0

  /**
   * How far cells have been filled, in metres, the cells filled since the last reset, and how often
   * the opening line was laid.
   */
  datatype Walk = Walk(until: int, visited: seq<int>, openings: nat)

  const START := Walk(-1, [], 0)

  /** `Math.ceil`. */
  function Ceil(x: real): (n: int) {
    -(-x).Floor
  }

  lemma CeilBounds(x: real)
    ensures (Ceil(x) - 1) as real < x <= Ceil(x) as real
  {
  }

  /** The first cell that starts at or after `x`. */
  function CellAt(x: real): (k: int) {
    Ceil(x / SPAWN_CELL as real)
  }

  lemma CellBounds(x: real)
    ensures ((CellAt(x) - 1) * SPAWN_CELL) as real < x <= (CellAt(x) * SPAWN_CELL) as real
  {
    CeilBounds(x / SPAWN_CELL as real);
  }

  function Cells(first: int, end: int): (ks: seq<int>)
    ensures |ks| == if first < end then end - first else 0
    ensures forall i :: 0 <= i < |ks| ==> ks[i] == first + i
    decreases if first < end then end - first else 0
  {
    if first >= end then [] else [first] + Cells(first + 1, end)
  }

  function From(until: int, x: real): (start: real) {
    if until as real < x - BEHIND then x - BEHIND else until as real
  }

  function Update(w: Walk, x: real): (r: Walk) {
    var ahead := CellAt(x + AHEAD) * SPAWN_CELL;
    if ahead <= w.until then w
    else
      Walk(ahead, w.visited + Cells(CellAt(From(w.until, x)), CellAt(x + AHEAD)),
           if w.until < 0 then w.openings + 1 else w.openings)
  }

  function Path(w: Walk, xs: seq<real>): (r: Walk)
    decreases |xs|
  {
    if xs == [] then w else Path(Update(w, xs[0]), xs[1..])
  }

  /* -------------------------------------------------------------- at most once */

  predicate Ascending(ks: seq<int>) {
    forall i, j :: 0 <= i < j < |ks| ==> ks[i] < ks[j]
  }

  /**
   * Filled cells are in order, none before the origin, all before the boundary; the opening line is
   * laid with the first.
   */
  predicate InOrder(w: Walk) {
    && Ascending(w.visited)
    && (forall i :: 0 <= i < |w.visited| ==> 0 <= w.visited[i] && w.visited[i] * SPAWN_CELL < w.until)
    && (w.until == -1 || (w.until >= 0 && w.until % SPAWN_CELL == 0))
    && w.openings == (if w.until < 0 then 0 else 1)
  }

  lemma UpdateKeepsOrder(w: Walk, x: real)
    requires InOrder(w)
    ensures InOrder(Update(w, x))
  {
    var from, to := CellAt(From(w.until, x)), CellAt(x + AHEAD);
    if to * SPAWN_CELL > w.until {
      StartAfter(w, x);
      AppendCells(w.visited, from, to);
    }
  }

  /** The walk starts at the boundary or later, and never before the origin. */
  lemma StartAfter(w: Walk, x: real)
    requires InOrder(w)
    ensures CellAt(From(w.until, x)) >= 0
    ensures forall i :: 0 <= i < |w.visited| ==> w.visited[i] < CellAt(From(w.until, x))
  {
    var start := From(w.until, x);
    CellBounds(start);
  }

  lemma {:induction false} AppendCells(ks: seq<int>, from: int, to: int)
    requires Ascending(ks) && forall i :: 0 <= i < |ks| ==> ks[i] < from
    ensures Ascending(ks + Cells(from, to))
  {
    var s := ks + Cells(from, to);
    forall i, j | 0 <= i < j < |s| ensures s[i] < s[j] {
      if j >= |ks| {
        assert s[j] == from + (j - |ks|);
        if i >= |ks| {
          assert s[i] == from + (i - |ks|);
        }
      }
    }
  }

  /** For any path, each cell is filled at most once between resets, and the opening line once. */
  lemma {:induction false} FilledAtMostOnce(w: Walk, xs: seq<real>)
    requires InOrder(w)
    ensures InOrder(Path(w, xs))
    decreases |xs|
  {
    if xs != [] {
      UpdateKeepsOrder(w, xs[0]);
      FilledAtMostOnce(Update(w, xs[0]), xs[1..]);
    }
  }

  /* ----------------------------------------------------------------- coverage */

  /** The cell starts within the window the player can meet. */
  predicate InWindow(k: int, x: real) {
    x - BEHIND <= (k * SPAWN_CELL) as real < x + AHEAD
  }

  ghost predicate Covered(w: Walk, x: real) {
    forall k: int :: InWindow(k, x) ==> k in w.visited
  }

  /** From `low` on, every cell at or after the origin and before the boundary is filled. */
  ghost predicate FilledFrom(w: Walk, low: real) {
    forall k: int :: 0 <= k && low <= (k * SPAWN_CELL) as real && k * SPAWN_CELL < w.until ==> k in w.visited
  }

  lemma FirstFills(x: real)
    ensures FilledFrom(Update(START, x), x - BEHIND)
  {
    var start := From(-1, x);
    var from, to := CellAt(start), CellAt(x + AHEAD);
    CellBounds(start);
    if to * SPAWN_CELL > -1 {
      forall k: int | 0 <= k && x - BEHIND <= (k * SPAWN_CELL) as real && k * SPAWN_CELL < to * SPAWN_CELL
        ensures k in START.visited + Cells(from, to)
      {
        InCells(from, to, k);
      }
    }
  }

  lemma {:induction false} InCells(from: int, to: int, k: int)
    requires from <= k < to
    ensures k in Cells(from, to)
  {
    assert Cells(from, to)[k - from] == k;
  }

  lemma UpdateFills(w: Walk, x: real, low: real)
    requires InOrder(w) && FilledFrom(w, low) && low <= x - BEHIND
    ensures FilledFrom(Update(w, x), x - BEHIND)
  {
    var start := From(w.until, x);
    var from, to := CellAt(start), CellAt(x + AHEAD);
    CellBounds(start);
    if to * SPAWN_CELL > w.until {
      forall k: int | 0 <= k && x - BEHIND <= (k * SPAWN_CELL) as real && k < to
        ensures k in w.visited + Cells(from, to)
      {
        if k * SPAWN_CELL < w.until {
          assert k in w.visited;
        } else {
          InCells(from, to, k);
        }
      }
    }
  }

  predicate Forward(xs: seq<real>) {
    forall i :: 0 < i < |xs| ==> xs[i - 1] <= xs[i]
  }

  /** The boundary reaches as far as the window does, unless that ends before the origin. */
  predicate Reaches(w: Walk, x: real) {
    CellAt(x + AHEAD) * SPAWN_CELL <= w.until || (w.until == -1 && CellAt(x + AHEAD) < 0)
  }

  lemma UpdateReaches(w: Walk, x: real)
    requires InOrder(w)
    ensures Reaches(Update(w, x), x)
  {
  }

  lemma {:induction false} PathFills(w: Walk, x: real, xs: seq<real>)
    requires InOrder(w) && FilledFrom(w, x - BEHIND) && Reaches(w, x) && Forward([x] + xs)
    ensures var last := ([x] + xs)[|xs|];
      var r := Path(w, xs);
      InOrder(r) && FilledFrom(r, last - BEHIND) && Reaches(r, last)
    decreases |xs|
  {
    if xs != [] {
      assert ([x] + xs)[0] == x && ([x] + xs)[1] == xs[0];
      UpdateKeepsOrder(w, xs[0]);
      UpdateFills(w, xs[0], x - BEHIND);
      UpdateReaches(w, xs[0]);
      assert [xs[0]] + xs[1..] == xs;
      forall i | 0 < i < |xs| ensures xs[i - 1] <= xs[i] {
        assert ([x] + xs)[i] == xs[i - 1] && ([x] + xs)[i + 1] == xs[i];
      }
      PathFills(Update(w, xs[0]), xs[0], xs[1..]);
    }
  }

  lemma CoveredExactly(w: Walk, x: real)
    requires InOrder(w) && FilledFrom(w, x - BEHIND) && Reaches(w, x)
    ensures Covered(w, x) <==> x > -6.0
  {
    CellBounds(x + AHEAD);
    if x > -6.0 {
      forall k: int | InWindow(k, x) ensures k in w.visited {
        assert k >= 0;
      }
    } else {
      var k := CellAt(x - BEHIND);
      CellBounds(x - BEHIND);
      assert InWindow(k, x) && k < 0;
      assert k !in w.visited;
    }
  }

  /**
   * On a path that does not go back, after each update every cell from 20 m behind to 420 m ahead
   * has been filled, exactly when the bird is past the six metres before the origin where the
   * window still takes in a cell of negative number.
   */
  lemma {:induction false} WindowIsFilled(x: real, xs: seq<real>)
    requires Forward([x] + xs)
    ensures var last := ([x] + xs)[|xs|];
      Covered(Path(Update(START, x), xs), last) <==> last > -6.0
  {
    FirstFills(x);
    UpdateReaches(START, x);
    UpdateKeepsOrder(START, x);
    PathFills(Update(START, x), x, xs);
    CoveredExactly(Path(Update(START, x), xs), ([x] + xs)[|xs|]);
  }

  /** From 40 m on, where cells may hold anything, nothing is ever missed. */
  lemma {:induction false} NothingMissed(x: real, xs: seq<real>, k: int)
    requires Forward([x] + xs) && InWindow(k, ([x] + xs)[|xs|]) && k * SPAWN_CELL >= 40
    ensures k in Path(Update(START, x), xs).visited
  {
    FirstFills(x);
    UpdateReaches(START, x);
    UpdateKeepsOrder(START, x);
    PathFills(Update(START, x), x, xs);
    CellBounds(([x] + xs)[|xs|] + AHEAD);
  }
}
